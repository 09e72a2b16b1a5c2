/** Fingerprints and sizes of one Messages body. Canonical serialisation and FNV-1a are
    parameters (`Codec`): nothing here depends on how they compute. */
module Analysis {
  import opened Wrappers
  import opened Json
  import opened Breakpoints

  datatype Codec = Codec(canon: Value -> string, hash: string -> nat, fold: seq<nat> -> nat)

  /** A block without its `cache_control` member: a directive, not content. */
  function WithoutCc(block: Value): Value {
    match block
    case Object(m) => Object(m - {"cache_control"})
    case _ => block
  }

  function BlocksWithoutCc(blocks: seq<Value>): (r: seq<Value>)
    ensures |r| == |blocks| && forall i :: 0 <= i < |r| ==> r[i] == WithoutCc(blocks[i])
  {
    seq(|blocks|, i requires 0 <= i < |blocks| => WithoutCc(blocks[i]))
  }

  function MessageWithoutCc(m: Value): Value {
    match Get(m, "content")
    case Some(Array(blocks)) => Object(m.fields["content" := Array(BlocksWithoutCc(blocks))])
    case _ => m
  }

  function MessagesWithoutCc(messages: seq<Value>): (r: seq<Value>)
    ensures |r| == |messages| && forall i :: 0 <= i < |r| ==> r[i] == MessageWithoutCc(messages[i])
  {
    seq(|messages|, i requires 0 <= i < |messages| => MessageWithoutCc(messages[i]))
  }

  /** An ephemeral `cache_control` with its effective lifetime; an omitted one is five minutes. */
  function Breakpoint(block: Value): Option<Ttl> {
    match Get(block, "cache_control")
    case None => None
    case Some(cc) =>
      if GetStr(cc, "type") != Some("ephemeral") then None
      else if GetStr(cc, "ttl") == Some("1h") then Some(OneHour)
      else Some(FiveMin)
  }

  function BreakpointsOf(blocks: seq<Value>): (r: seq<Option<Ttl>>)
    ensures |r| == |blocks| && forall i :: 0 <= i < |r| ==> r[i] == Breakpoint(blocks[i])
  {
    seq(|blocks|, i requires 0 <= i < |blocks| => Breakpoint(blocks[i]))
  }

  /** The longest breakpoint among a message's blocks. */
  function MessageBreakpoint(m: Value): Option<Ttl> { LongestOf(BreakpointsOf(GetItems(m, "content"))) }

  function Canons(c: Codec, values: seq<Value>): (r: seq<string>)
    ensures |r| == |values| && forall i :: 0 <= i < |r| ==> r[i] == c.canon(values[i])
  {
    seq(|values|, i requires 0 <= i < |values| => c.canon(values[i]))
  }

  function Hashes(c: Codec, canons: seq<string>): (r: seq<nat>)
    ensures |r| == |canons| && forall i :: 0 <= i < |r| ==> r[i] == c.hash(canons[i])
  {
    seq(|canons|, i requires 0 <= i < |canons| => c.hash(canons[i]))
  }

  function BlockParts(c: Codec, blocks: seq<Value>): (r: seq<Part>)
    ensures |r| == |blocks|
    ensures forall i :: 0 <= i < |r| ==> r[i] == Part(|c.canon(WithoutCc(blocks[i]))|, Breakpoint(blocks[i]))
  {
    seq(|blocks|, i requires 0 <= i < |blocks| => Part(|c.canon(WithoutCc(blocks[i]))|, Breakpoint(blocks[i])))
  }

  function MessageParts(c: Codec, messages: seq<Value>): (r: seq<Part>)
    ensures |r| == |messages|
    ensures forall i :: 0 <= i < |r| ==>
            r[i] == Part(|c.canon(MessageWithoutCc(messages[i]))|, MessageBreakpoint(messages[i]))
  {
    seq(|messages|, i requires 0 <= i < |messages| => Part(|c.canon(MessageWithoutCc(messages[i]))|,
        MessageBreakpoint(messages[i])))
  }

  function Tools(root: Value): seq<Value> { GetItems(root, "tools") }

  /** A string `system` counts as one block. */
  function System(root: Value): seq<Value> {
    match Get(root, "system")
    case Some(Str(s)) => [Str(s)]
    case Some(Array(a)) => a
    case _ => []
  }

  function Messages(root: Value): seq<Value> { GetItems(root, "messages") }

  predicate Cites(block: Value) {
    match Get(block, "citations") case Some(c) => Get(c, "enabled") == Some(Bool(true)) case None => false
  }

  predicate CitesIn(m: Value) {
    exists j :: 0 <= j < |GetItems(m, "content")| && Cites(GetItems(m, "content")[j])
  }

  predicate Citations(root: Value) {
    exists i :: 0 <= i < |Messages(root)| && CitesIn(Messages(root)[i])
  }

  function Effort(root: Value): Value {
    match Get(root, "output_config") case Some(o) => GetOrNull(o, "effort") case None => Null
  }

  /** The settings that invalidate a cache without any change of content. */
  function Settings(root: Value): Value {
    Object(map[
      "thinking" := GetOrNull(root, "thinking"),
      "effort" := Effort(root),
      "speed" := GetOrNull(root, "speed"),
      "citations" := Bool(Citations(root))])
  }

  datatype Analysis = Analysis(
    model: string,
    layout: Layout,
    toolsBytes: nat,
    systemBytes: nat,
    ctxFp: nat,
    toolsFp: nat,
    systemFp: nat,
    prefixFp: nat,
    toolsHashes: seq<nat>,
    systemHashes: seq<nat>,
    msgsHashes: seq<nat>,
    toolsCanon: seq<string>,
    systemCanon: seq<string>)

  /** `None` when the body is not a JSON object. */
  function Analyze(c: Codec, root: Value): Option<Analysis> {
    if !root.Object? then None
    else
      var (tools, system) := (BlockParts(c, Tools(root)), BlockParts(c, System(root)));
      var layout := LayoutOf(tools, system, MessageParts(c, Messages(root)), Breakpoint(root));
      var toolsCanon := Canons(c, BlocksWithoutCc(Tools(root)));
      var systemCanon := Canons(c, BlocksWithoutCc(System(root)));
      var (toolsHashes, systemHashes) := (Hashes(c, toolsCanon), Hashes(c, systemCanon));
      Some(Analysis(
        GetStr(root, "model").GetOr("-"), layout, Size(tools), Size(system),
        c.hash(c.canon(Settings(root))), c.fold(toolsHashes), c.fold(systemHashes),
        c.fold(toolsHashes[..layout.prefixTools] + systemHashes[..layout.prefixSystem]),
        toolsHashes, systemHashes, Hashes(c, Canons(c, MessagesWithoutCc(Messages(root)))),
        toolsCanon, systemCanon))
  }

  /** The canonical bytes of the first `n` blocks. */
  function Bytes(blocks: seq<string>, n: nat): nat
    requires n <= |blocks|
  {
    if n == 0 then 0 else Bytes(blocks, n - 1) + |blocks[n - 1]|
  }

  lemma {:induction false} BytesOfParts(c: Codec, blocks: seq<Value>, n: nat)
    requires n <= |blocks|
    ensures SizeTo(BlockParts(c, blocks), n) == Bytes(Canons(c, BlocksWithoutCc(blocks)), n)
  {
    if n > 0 {
      BytesOfParts(c, blocks, n - 1);
    }
  }

  /** `prefixBytes` counts the bytes of exactly the blocks that `prefixFp` hashes: the
      first `prefixTools` tools and the first `prefixSystem` system blocks. */
  lemma PrefixBytesAreHashed(c: Codec, root: Value)
    requires root.Object?
    ensures var a := Analyze(c, root).value;
            var (pt, ps) := (a.layout.prefixTools, a.layout.prefixSystem);
            && pt <= |a.toolsCanon| && ps <= |a.systemCanon|
            && a.prefixFp == c.fold(Hashes(c, a.toolsCanon)[..pt] + Hashes(c, a.systemCanon)[..ps])
            && a.layout.prefixBytes == Bytes(a.toolsCanon, pt) + Bytes(a.systemCanon, ps)
  {
    var (tools, system) := (BlockParts(c, Tools(root)), BlockParts(c, System(root)));
    var (pt, ps) := PrefixExtent(tools, system);
    PrefixBytesMatchExtent(tools, system);
    BytesOfParts(c, Tools(root), pt);
    BytesOfParts(c, System(root), ps);
  }

  /** The section sizes count every block, and bound the prefix. */
  lemma SectionBytes(c: Codec, root: Value)
    requires root.Object?
    ensures var a := Analyze(c, root).value;
            && a.toolsBytes == Bytes(a.toolsCanon, |a.toolsCanon|)
            && a.systemBytes == Bytes(a.systemCanon, |a.systemCanon|)
            && a.layout.prefixBytes <= a.toolsBytes + a.systemBytes
  {
    PrefixBytesMatchExtent(BlockParts(c, Tools(root)), BlockParts(c, System(root)));
    BytesOfParts(c, Tools(root), |Tools(root)|);
    BytesOfParts(c, System(root), |System(root)|);
  }

  /** Two bodies whose tools, system and messages differ only in `cache_control` members. */
  ghost predicate SameContent(root: Value, root': Value) {
    && BlocksWithoutCc(Tools(root)) == BlocksWithoutCc(Tools(root'))
    && BlocksWithoutCc(System(root)) == BlocksWithoutCc(System(root'))
    && MessagesWithoutCc(Messages(root)) == MessagesWithoutCc(Messages(root'))
  }

  /** Moving, adding or removing `cache_control` members changes no fingerprint or size of
      the tools or the system and no message hash; while the prefix covers the same
      blocks, its fingerprint and size stay too. */
  lemma LayoutIsNotContent(c: Codec, root: Value, root': Value)
    requires root.Object? && root'.Object? && SameContent(root, root')
    ensures var (a, a') := (Analyze(c, root).value, Analyze(c, root').value);
            && a.toolsFp == a'.toolsFp && a.systemFp == a'.systemFp && a.msgsHashes == a'.msgsHashes
            && a.toolsBytes == a'.toolsBytes && a.systemBytes == a'.systemBytes
            && (a.layout.prefixTools == a'.layout.prefixTools && a.layout.prefixSystem == a'.layout.prefixSystem ==>
                  a.prefixFp == a'.prefixFp && a.layout.prefixBytes == a'.layout.prefixBytes)
  {
    SectionBytes(c, root);
    SectionBytes(c, root');
    PrefixBytesAreHashed(c, root);
    PrefixBytesAreHashed(c, root');
  }

  // ---- Editing breakpoints ----

  /** A block with its `cache_control` member set or removed. */
  function WithCc(block: Value, cc: Option<Value>): Value {
    match block
    case Object(m) => Object(match cc case Some(v) => m["cache_control" := v] case None => m - {"cache_control"})
    case _ => block
  }

  /** One step down into a JSON value. */
  datatype Member = Key(k: string) | Index(i: nat)

  type Path = seq<Member>

  /** `v` with the `cache_control` member set or removed of what the path from `n` on leads to. */
  function EditAt(v: Value, path: Path, n: nat, cc: Option<Value>): Value
    requires n <= |path|
    decreases |path| - n
  {
    if n == |path| then WithCc(v, cc)
    else
      match (path[n], v)
      case (Key(k), Object(m)) => if k in m then Object(m[k := EditAt(m[k], path, n + 1, cc)]) else v
      case (Index(i), Array(a)) => if i < |a| then Array(a[i := EditAt(a[i], path, n + 1, cc)]) else v
      case _ => v
  }

  function Target(v: Value, path: Path, n: nat): Option<Value>
    requires n <= |path|
    decreases |path| - n
  {
    if n == |path| then Some(v)
    else
      match (path[n], v)
      case (Key(k), Object(m)) => if k in m then Target(m[k], path, n + 1) else None
      case (Index(i), Array(a)) => if i < |a| then Target(a[i], path, n + 1) else None
      case _ => None
  }

  function Edited(root: Value, path: Path, cc: Option<Value>): Value { EditAt(root, path, 0, cc) }

  /** The path leads to an object whose `cache_control` member is not as it is to be. */
  predicate Alters(v: Value, path: Path, n: nat, cc: Option<Value>)
    requires n <= |path|
  {
    var t := Target(v, path, n);
    t.Some? && t.value.Object? && Get(t.value, "cache_control") != cc
  }

  /** An edit changes a value exactly when it alters its target, and never the kind of value. */
  lemma {:induction false} EditShows(v: Value, path: Path, n: nat, cc: Option<Value>)
    requires n <= |path|
    ensures EditAt(v, path, n, cc) != v <==> Alters(v, path, n, cc)
    ensures EditAt(v, path, n, cc).Object? <==> v.Object?
    ensures EditAt(v, path, n, cc).Array? <==> v.Array?
    decreases |path| - n
  {
    if n == |path| {
      CcShows(v, cc);
    } else {
      match (path[n], v)
      case (Key(k), Object(m)) =>
        if k in m {
          EditShows(m[k], path, n + 1, cc);
          assert m[k := m[k]] == m;
          assert EditAt(v, path, n, cc) == v ==> EditAt(v, path, n, cc).fields[k] == m[k];
        }
      case (Index(i), Array(a)) =>
        if i < |a| {
          EditShows(a[i], path, n + 1, cc);
          assert a[i := a[i]] == a;
          assert EditAt(v, path, n, cc) == v ==> EditAt(v, path, n, cc).items[i] == a[i];
        }
      case _ =>
    }
  }

  lemma CcShows(v: Value, cc: Option<Value>)
    ensures WithCc(v, cc) != v <==> v.Object? && Get(v, "cache_control") != cc
  {
    if v.Object? {
      assert Get(WithCc(v, cc), "cache_control") == cc;
      if Get(v, "cache_control") == cc {
        assert WithCc(v, cc).fields == v.fields;
      }
    }
  }

  lemma CcIsStripped(block: Value, cc: Option<Value>)
    ensures WithoutCc(WithCc(block, cc)) == WithoutCc(block)
  {
    if block.Object? && cc.Some? {
      assert block.fields["cache_control" := cc.value] - {"cache_control"} == block.fields - {"cache_control"};
    }
  }

  /** From a block on, the path is at an end or goes into the block's `cache_control`. */
  predicate AtMark(path: Path, n: nat) {
    n == |path| || (n < |path| && path[n] == Key("cache_control"))
  }

  predicate AtBlockMark(path: Path, n: nat) { n < |path| && path[n].Index? && AtMark(path, n + 1) }

  /** Where the fingerprints expect a `cache_control`: on a tool, a system block or a block of
      a message. */
  predicate AtContentMark(path: Path, n: nat) {
    n < |path| && path[n] == Key("content") && AtBlockMark(path, n + 1)
  }

  lemma MemberStripped(m: map<string, Value>, k: string, v: Value)
    ensures k == "cache_control" ==> m[k := v] - {"cache_control"} == m - {"cache_control"}
    ensures k != "cache_control" && (k !in m || m[k] != v) ==> m[k := v] - {"cache_control"} != m - {"cache_control"}
  {
    if k != "cache_control" && (k !in m || m[k] != v) {
      var (a, b) := (m[k := v] - {"cache_control"}, m - {"cache_control"});
      assert k in a && a[k] == v;
      assert k in b ==> b[k] == m[k];
    }
  }

  lemma BlockEdit(block: Value, path: Path, n: nat, cc: Option<Value>)
    requires n <= |path|
    ensures WithoutCc(EditAt(block, path, n, cc)) == WithoutCc(block) <==>
            AtMark(path, n) || EditAt(block, path, n, cc) == block
  {
    EditShows(block, path, n, cc);
    if n == |path| {
      CcIsStripped(block, cc);
    } else if path[n].Key? && block.Object? && path[n].k in block.fields {
      MemberStripped(block.fields, path[n].k, EditAt(block.fields[path[n].k], path, n + 1, cc));
    }
  }

  lemma BlocksEdit(blocks: seq<Value>, path: Path, n: nat, cc: Option<Value>)
    requires n <= |path|
    ensures var after := EditAt(Array(blocks), path, n, cc);
            && after.Array?
            && (BlocksWithoutCc(after.items) == BlocksWithoutCc(blocks) <==>
                  AtBlockMark(path, n) || after == Array(blocks))
  {
    if n < |path| && path[n].Index? && path[n].i < |blocks| {
      var i := path[n].i;
      BlockEdit(blocks[i], path, n + 1, cc);
      var block := EditAt(blocks[i], path, n + 1, cc);
      assert BlocksWithoutCc(blocks[i := block]) == BlocksWithoutCc(blocks)[i := WithoutCc(block)];
      assert BlocksWithoutCc(blocks)[i] == WithoutCc(blocks[i]);
      assert block == blocks[i] ==> blocks[i := block] == blocks;
      assert blocks[i := block][i] == block;
    }
  }

  lemma MessageEdit(m: Value, path: Path, n: nat, cc: Option<Value>)
    requires n <= |path|
    ensures var after := EditAt(m, path, n, cc);
            MessageWithoutCc(after) == MessageWithoutCc(m) <==> AtContentMark(path, n) || after == m
  {
    EditShows(m, path, n, cc);
    var after := EditAt(m, path, n, cc);
    var content := Get(m, "content");
    if content.Some? && content.value.Array? {
      if n < |path| && path[n] == Key("content") {
        BlocksEdit(content.value.items, path, n + 1, cc);
        ContentOnly(m, content.value.items, EditAt(content.value, path, n + 1, cc).items);
      } else {
        SameBlocks(m, after);
      }
    } else if content.Some? && n < |path| && path[n] == Key("content") {
      EditShows(content.value, path, n + 1, cc);
    }
  }

  /** A message whose content is replaced by other blocks. */
  lemma ContentOnly(m: Value, blocks: seq<Value>, blocks': seq<Value>)
    requires Get(m, "content") == Some(Array(blocks))
    ensures var after := Object(m.fields["content" := Array(blocks')]);
            && (MessageWithoutCc(after) == MessageWithoutCc(m) <==> BlocksWithoutCc(blocks') == BlocksWithoutCc(blocks))
            && (after == m <==> blocks' == blocks)
  {
    var (kept, kept') := (BlocksWithoutCc(blocks), BlocksWithoutCc(blocks'));
    assert m.fields["content" := Array(blocks')]["content" := Array(kept')] == m.fields["content" := Array(kept')];
    assert m.fields["content" := Array(kept)]["content"] == Array(kept);
    assert m.fields["content" := Array(kept')]["content"] == Array(kept');
    assert m.fields["content" := Array(blocks')]["content"] == Array(blocks');
    assert m.fields["content" := Array(blocks)] == m.fields;
  }

  /** Two messages with the same content differ exactly when they do without directives. */
  lemma SameBlocks(m: Value, m': Value)
    requires Get(m, "content") == Get(m', "content") && Get(m, "content").Some? && Get(m, "content").value.Array?
    ensures MessageWithoutCc(m') == MessageWithoutCc(m) <==> m' == m
  {
    var kept := Array(BlocksWithoutCc(Get(m, "content").value.items));
    if MessageWithoutCc(m') == MessageWithoutCc(m) {
      forall k ensures k in m.fields <==> k in m'.fields {
        assert k in m.fields["content" := kept] <==> k in m'.fields["content" := kept];
      }
      forall k | k in m.fields ensures m.fields[k] == m'.fields[k] {
        assert k != "content" ==> m.fields["content" := kept][k] == m'.fields["content" := kept][k];
      }
      assert m.fields == m'.fields;
    }
  }

  lemma MessagesEdit(messages: seq<Value>, path: Path, n: nat, cc: Option<Value>)
    requires n <= |path|
    ensures var after := EditAt(Array(messages), path, n, cc);
            && after.Array?
            && (MessagesWithoutCc(after.items) == MessagesWithoutCc(messages) <==>
                  (n < |path| && path[n].Index? && AtContentMark(path, n + 1)) || after == Array(messages))
  {
    if n < |path| && path[n].Index? && path[n].i < |messages| {
      var i := path[n].i;
      MessageEdit(messages[i], path, n + 1, cc);
      var m := EditAt(messages[i], path, n + 1, cc);
      assert MessagesWithoutCc(messages[i := m]) == MessagesWithoutCc(messages)[i := MessageWithoutCc(m)];
      assert MessagesWithoutCc(messages)[i] == MessageWithoutCc(messages[i]);
      assert m == messages[i] ==> messages[i := m] == messages;
      assert messages[i := m][i] == m;
    }
  }

  /** The four places of a breakpoint: on a tool, a system block, a block of a message, or on
      the body itself. */
  predicate IsMark(path: Path) {
    || path == []
    || ((path[0] == Key("tools") || path[0] == Key("system")) && AtBlockMark(path, 1))
    || (path[0] == Key("messages") && |path| > 1 && path[1].Index? && AtContentMark(path, 2))
  }

  /** The path leads into an array that is fingerprinted, but not to a breakpoint's place. */
  predicate InContent(root: Value, path: Path) {
    && |path| > 0 && (path[0] == Key("tools") || path[0] == Key("system") || path[0] == Key("messages"))
    && Get(root, path[0].k).Some? && Get(root, path[0].k).value.Array? && !IsMark(path)
  }

  /** An edit leaves the content as it is exactly when it stands where a breakpoint can, or
      outside of what is fingerprinted, or alters nothing. */
  lemma ContentEditedExactly(root: Value, path: Path, cc: Option<Value>)
    requires root.Object?
    ensures Edited(root, path, cc).Object?
    ensures SameContent(root, Edited(root, path, cc)) <==> !(InContent(root, path) && Alters(root, path, 0, cc))
  {
    EditShows(root, path, 0, cc);
    if |path| == 0 {
      SectionsKeep(root.fields, WithCc(root, cc).fields, "cache_control");
    } else if path[0].Key? && path[0].k in root.fields {
      MemberEdit(root, path, cc, path[0].k, root.fields[path[0].k]);
    }
  }

  /** Members other than one are the same; what is read of them is too. */
  lemma SectionsKeep(m: map<string, Value>, m': map<string, Value>, k: string)
    requires forall key :: key != k ==> Get(Object(m'), key) == Get(Object(m), key)
    ensures k != "tools" ==> Tools(Object(m')) == Tools(Object(m))
    ensures k != "system" ==> System(Object(m')) == System(Object(m))
    ensures k != "messages" ==> Messages(Object(m')) == Messages(Object(m))
  {
  }

  lemma MemberEdit(root: Value, path: Path, cc: Option<Value>, k: string, v: Value)
    requires |path| > 0 && path[0] == Key(k) && Get(root, k) == Some(v)
    ensures SameContent(root, Object(root.fields[k := EditAt(v, path, 1, cc)])) <==>
            !(InContent(root, path) && EditAt(v, path, 1, cc) != v)
  {
    var v' := EditAt(v, path, 1, cc);
    EditShows(v, path, 1, cc);
    SectionsKeep(root.fields, root.fields[k := v'], k);
    if k == "messages" {
      MessagesMemberEdit(root, path, cc, v);
    } else if k == "tools" || k == "system" {
      BlocksMemberEdit(root, path, cc, k, v);
    }
  }

  lemma MessagesMemberEdit(root: Value, path: Path, cc: Option<Value>, v: Value)
    requires |path| > 0 && path[0] == Key("messages") && Get(root, "messages") == Some(v)
    ensures var after := Object(root.fields["messages" := EditAt(v, path, 1, cc)]);
            MessagesWithoutCc(Messages(after)) == MessagesWithoutCc(Messages(root)) <==>
            !(InContent(root, path) && EditAt(v, path, 1, cc) != v)
  {
    EditShows(v, path, 1, cc);
    assert "tools" != "messages" && "system" != "messages";
    if v.Array? {
      MessagesEdit(v.items, path, 1, cc);
    }
  }

  lemma BlocksMemberEdit(root: Value, path: Path, cc: Option<Value>, k: string, v: Value)
    requires |path| > 0 && path[0] == Key(k) && Get(root, k) == Some(v) && (k == "tools" || k == "system")
    ensures var after := Object(root.fields[k := EditAt(v, path, 1, cc)]);
            (if k == "tools" then BlocksWithoutCc(Tools(after)) == BlocksWithoutCc(Tools(root))
             else BlocksWithoutCc(System(after)) == BlocksWithoutCc(System(root))) <==>
            !(InContent(root, path) && EditAt(v, path, 1, cc) != v)
  {
    EditShows(v, path, 1, cc);
    assert "tools" != "system" && "tools" != "messages" && "system" != "messages";
    if v.Array? {
      BlocksEdit(v.items, path, 1, cc);
    }
  }

  /** The fingerprints of what the body holds are the same. */
  ghost predicate SameFingerprints(a: Analysis, a': Analysis) {
    a.toolsFp == a'.toolsFp && a.systemFp == a'.systemFp && a.msgsHashes == a'.msgsHashes
  }

  function HashesOf(c: Codec, values: seq<Value>): seq<nat> { Hashes(c, Canons(c, values)) }

  /** At no place do two different values have the same hash, nor do two different lists of
      hashes fold into one. */
  ghost predicate Separates(c: Codec, a: seq<Value>, b: seq<Value>) {
    && (forall i :: 0 <= i < |a| && i < |b| && HashOf(c, a[i]) == HashOf(c, b[i]) ==> a[i] == b[i])
    && (c.fold(HashesOf(c, a)) == c.fold(HashesOf(c, b)) ==> HashesOf(c, a) == HashesOf(c, b))
  }

  function HashOf(c: Codec, v: Value): nat { c.hash(c.canon(v)) }

  /** The serialised forms of what two bodies hold do not collide. */
  ghost predicate NoCollision(c: Codec, root: Value, root': Value) {
    && Separates(c, BlocksWithoutCc(Tools(root)), BlocksWithoutCc(Tools(root')))
    && Separates(c, BlocksWithoutCc(System(root)), BlocksWithoutCc(System(root')))
    && Separates(c, MessagesWithoutCc(Messages(root)), MessagesWithoutCc(Messages(root')))
  }

  lemma HashesTell(c: Codec, a: seq<Value>, b: seq<Value>)
    requires Separates(c, a, b)
    ensures HashesOf(c, a) == HashesOf(c, b) <==> a == b
    ensures c.fold(HashesOf(c, a)) == c.fold(HashesOf(c, b)) <==> a == b
  {
    if HashesOf(c, a) == HashesOf(c, b) {
      forall i | 0 <= i < |a| ensures a[i] == b[i] {
        assert HashesOf(c, a)[i] == HashOf(c, a[i]) && HashesOf(c, b)[i] == HashOf(c, b[i]);
      }
    }
  }

  /** The fingerprints of tools, system and messages tell any two bodies apart exactly as their
      content does, unless serialised forms collide. */
  lemma FingerprintsAreContent(c: Codec, root: Value, root': Value)
    requires root.Object? && root'.Object? && NoCollision(c, root, root')
    ensures SameFingerprints(Analyze(c, root).value, Analyze(c, root').value) <==> SameContent(root, root')
  {
    HashesTell(c, BlocksWithoutCc(Tools(root)), BlocksWithoutCc(Tools(root')));
    HashesTell(c, BlocksWithoutCc(System(root)), BlocksWithoutCc(System(root')));
    HashesTell(c, MessagesWithoutCc(Messages(root)), MessagesWithoutCc(Messages(root')));
  }

  /** The blocks of the cached prefix, without their directives. */
  function PrefixBlocks(c: Codec, root: Value): seq<Value>
    requires root.Object?
  {
    var e := PrefixExtent(BlockParts(c, Tools(root)), BlockParts(c, System(root)));
    BlocksWithoutCc(Tools(root))[..e.0] + BlocksWithoutCc(System(root))[..e.1]
  }

  /** So does the fingerprint of the prefix for the blocks that it covers. */
  lemma PrefixFollowsItsBlocks(c: Codec, root: Value, root': Value)
    requires root.Object? && root'.Object? && Separates(c, PrefixBlocks(c, root), PrefixBlocks(c, root'))
    ensures Analyze(c, root).value.prefixFp == Analyze(c, root').value.prefixFp <==>
            PrefixBlocks(c, root) == PrefixBlocks(c, root')
  {
    PrefixHashes(c, root);
    PrefixHashes(c, root');
    HashesTell(c, PrefixBlocks(c, root), PrefixBlocks(c, root'));
  }

  lemma PrefixHashes(c: Codec, root: Value)
    requires root.Object?
    ensures Analyze(c, root).value.prefixFp == c.fold(HashesOf(c, PrefixBlocks(c, root)))
  {
    var e := PrefixExtent(BlockParts(c, Tools(root)), BlockParts(c, System(root)));
    var (tools, system) := (BlocksWithoutCc(Tools(root)), BlocksWithoutCc(System(root)));
    assert HashesOf(c, tools[..e.0] + system[..e.1]) == HashesOf(c, tools)[..e.0] + HashesOf(c, system)[..e.1];
  }

  /** What of a body is analysed: its model, each tool, each block of the system, a string being
      one block, and each message. */
  lemma AnalysisReads(c: Codec, root: Value)
    requires root.Object?
    ensures var a := Analyze(c, root).value;
            && a.model == (match Get(root, "model") case Some(Str(name)) => name case _ => "-")
            && a.toolsHashes == Hashes(c, a.toolsCanon) && a.systemHashes == Hashes(c, a.systemCanon)
            && (forall items :: Get(root, "tools") == Some(Array(items)) ==>
                  a.toolsCanon == Canons(c, BlocksWithoutCc(items)))
            && (forall items :: Get(root, "messages") == Some(Array(items)) ==>
                  a.msgsHashes == HashesOf(c, MessagesWithoutCc(items)))
  {
  }

  lemma AnalysisReadsSystem(c: Codec, root: Value)
    requires root.Object?
    ensures var a := Analyze(c, root).value;
            && (forall items :: Get(root, "system") == Some(Array(items)) ==>
                  a.systemCanon == Canons(c, BlocksWithoutCc(items)))
            && (forall text :: Get(root, "system") == Some(Str(text)) ==> a.systemCanon == [c.canon(Str(text))])
  {
    var system := Get(root, "system");
    if system.Some? && system.value.Str? {
      assert BlocksWithoutCc([system.value]) == [system.value];
      assert Canons(c, [system.value]) == [c.canon(system.value)];
    }
  }

  /** Setting, changing or removing a `cache_control` member anywhere in a body leaves the
      fingerprints of tools, system and messages as they are exactly where it alters nothing or
      does not stand in the content: a breakpoint's place is not content, while a member on a
      message itself, or deeper inside a block, is. */
  lemma EditsAreNotContentExactly(c: Codec, root: Value, path: Path, cc: Option<Value>)
    requires root.Object?
    requires NoCollision(c, root, Edited(root, path, cc))
    ensures Edited(root, path, cc).Object?
    ensures SameFingerprints(Analyze(c, root).value, Analyze(c, Edited(root, path, cc)).value) <==>
            !(InContent(root, path) && Alters(root, path, 0, cc))
  {
    ContentEditedExactly(root, path, cc);
    FingerprintsAreContent(c, root, Edited(root, path, cc));
  }

  const MARK := Object(map["type" := Str("ephemeral")])

  /** A breakpoint set on a message itself, or on a block inside the content of a block, is
      content: it changes the message that is hashed. */
  lemma MarkElsewhereIsContent(root: Value, path: Path)
    requires |path| == 2 || (|path| == 6 && path[4] == Key("content"))
    requires path[0] == Key("messages") && path[1].Index? && Alters(root, path, 0, Some(MARK))
    ensures !SameContent(root, Edited(root, path, Some(MARK)))
  {
    ContentEditedExactly(root, path, Some(MARK));
    var messages := Get(root, "messages");
    assert messages.Some? && messages.value.Array? by {
      assert Target(messages.value, path, 1).Some?;
    }
  }

  // ---- Editing leaves the settings ----

  lemma MarkKeepsCites(block: Value, path: Path, n: nat, cc: Option<Value>)
    requires n <= |path| && AtMark(path, n)
    ensures Cites(EditAt(block, path, n, cc)) == Cites(block)
  {
    assert "cache_control" != "citations";
    assert Get(EditAt(block, path, n, cc), "citations") == Get(block, "citations");
  }

  lemma MarkKeepsCitesIn(m: Value, path: Path, n: nat, cc: Option<Value>)
    requires n <= |path| && AtContentMark(path, n)
    ensures CitesIn(EditAt(m, path, n, cc)) == CitesIn(m)
  {
    var (blocks, j) := (GetItems(m, "content"), path[n + 1].i);
    if j < |blocks| {
      var block := EditAt(blocks[j], path, n + 2, cc);
      MarkKeepsCites(blocks[j], path, n + 2, cc);
      assert GetItems(EditAt(m, path, n, cc), "content") == blocks[j := block];
      assert forall k :: 0 <= k < |blocks| ==> Cites(blocks[j := block][k]) == Cites(blocks[k]);
    } else {
      assert GetItems(EditAt(m, path, n, cc), "content") == blocks;
    }
  }

  lemma MarkKeepsCitations(root: Value, path: Path, cc: Option<Value>)
    requires root.Object? && |path| > 1 && path[0] == Key("messages") && path[1].Index? && AtContentMark(path, 2)
    ensures Citations(Edited(root, path, cc)) == Citations(root)
  {
    var (messages, i) := (Messages(root), path[1].i);
    if i < |messages| {
      var m := EditAt(messages[i], path, 2, cc);
      assert Get(root, "messages") == Some(Array(messages));
      MarkKeepsCitesIn(messages[i], path, 2, cc);
      assert EditAt(Array(messages), path, 1, cc) == Array(messages[i := m]);
      assert Edited(root, path, cc) == Object(root.fields["messages" := Array(messages[i := m])]);
      var after := Messages(Edited(root, path, cc));
      assert after == messages[i := m];
      if Citations(root) {
        var k :| 0 <= k < |messages| && CitesIn(messages[k]);
        assert CitesIn(after[k]);
      }
      if Citations(Edited(root, path, cc)) {
        var k :| 0 <= k < |after| && CitesIn(after[k]);
        assert CitesIn(messages[k]);
      }
    } else if "messages" in root.fields {
      var v := root.fields["messages"];
      assert EditAt(v, path, 1, cc) == v && root.fields["messages" := v] == root.fields;
    }
  }

  lemma MarksKeepSettings(root: Value, path: Path, cc: Option<Value>)
    requires root.Object? && IsMark(path)
    ensures Settings(Edited(root, path, cc)) == Settings(root)
  {
    var after := Edited(root, path, cc);
    if |path| > 0 && path[0] == Key("messages") {
      MarkKeepsCitations(root, path, cc);
    } else {
      assert "messages" != "cache_control" && "messages" != "tools" && "messages" != "system";
      assert Messages(after) == Messages(root);
    }
    SettingsMembers(path);
    assert Get(after, "thinking") == Get(root, "thinking") && Get(after, "speed") == Get(root, "speed");
    assert Get(after, "output_config") == Get(root, "output_config");
  }

  lemma SettingsMembers(path: Path)
    requires IsMark(path)
    ensures forall k :: k == "thinking" || k == "speed" || k == "output_config" ==>
            k != "cache_control" && (|path| > 0 ==> path[0] != Key(k))
  {
  }

  function AllEdited(root: Value, edits: seq<(Path, Option<Value>)>, n: nat): Value
    requires n <= |edits|
  {
    if n == 0 then root else Edited(AllEdited(root, edits, n - 1), edits[n - 1].0, edits[n - 1].1)
  }

  lemma {:induction false} EditsAreStripped(root: Value, edits: seq<(Path, Option<Value>)>, n: nat)
    requires root.Object? && n <= |edits| && forall k :: 0 <= k < n ==> IsMark(edits[k].0)
    ensures AllEdited(root, edits, n).Object? && SameContent(root, AllEdited(root, edits, n))
    ensures Settings(AllEdited(root, edits, n)) == Settings(root)
  {
    if n > 0 {
      EditsAreStripped(root, edits, n - 1);
      ContentEditedExactly(AllEdited(root, edits, n - 1), edits[n - 1].0, edits[n - 1].1);
      MarksKeepSettings(AllEdited(root, edits, n - 1), edits[n - 1].0, edits[n - 1].1);
    }
  }

  /** Setting, changing or removing `cache_control` members at the places of breakpoints, any
      number of them, changes no fingerprint or size of the tools or the system, no message
      hash, and not the fingerprint of the settings. */
  lemma EditsAreNotContent(c: Codec, root: Value, edits: seq<(Path, Option<Value>)>)
    requires root.Object? && forall k :: 0 <= k < |edits| ==> IsMark(edits[k].0)
    ensures AllEdited(root, edits, |edits|).Object?
    ensures var (a, a') := (Analyze(c, root).value, Analyze(c, AllEdited(root, edits, |edits|)).value);
            && SameFingerprints(a, a') && a.ctxFp == a'.ctxFp
            && a.toolsBytes == a'.toolsBytes && a.systemBytes == a'.systemBytes
  {
    EditsAreStripped(root, edits, |edits|);
    LayoutIsNotContent(c, root, AllEdited(root, edits, |edits|));
  }

  /** Nothing but the documented settings enters the context fingerprint: it is the same
      for two bodies exactly when these are, unless their serialised forms collide. */
  lemma ContextFollowsSettings(c: Codec, root: Value, root': Value)
    requires root.Object? && root'.Object?
    requires c.hash(c.canon(Settings(root))) == c.hash(c.canon(Settings(root'))) ==> Settings(root) == Settings(root')
    ensures Analyze(c, root).value.ctxFp == Analyze(c, root').value.ctxFp <==>
            && GetOrNull(root, "thinking") == GetOrNull(root', "thinking")
            && GetOrNull(GetOrNull(root, "output_config"), "effort") ==
               GetOrNull(GetOrNull(root', "output_config"), "effort")
            && GetOrNull(root, "speed") == GetOrNull(root', "speed")
            && (WantsCitations(root) <==> WantsCitations(root'))
  {
    SettingsTell(root, root');
  }

  lemma SettingsTell(root: Value, root': Value)
    ensures Settings(root) == Settings(root') <==>
            && GetOrNull(root, "thinking") == GetOrNull(root', "thinking")
            && GetOrNull(GetOrNull(root, "output_config"), "effort") ==
               GetOrNull(GetOrNull(root', "output_config"), "effort")
            && GetOrNull(root, "speed") == GetOrNull(root', "speed")
            && (WantsCitations(root) <==> WantsCitations(root'))
  {
    SettingsAreFour(root);
    SettingsAreFour(root');
    CitationsExactly(root);
    CitationsExactly(root');
    EffortExactly(root);
    EffortExactly(root');
  }

  lemma EffortExactly(root: Value)
    ensures Effort(root) == GetOrNull(GetOrNull(root, "output_config"), "effort")
  {
  }

  /** A block of some message has citations enabled. */
  ghost predicate WantsCitations(root: Value) {
    exists messages, i, blocks, j ::
      && Get(root, "messages") == Some(Array(messages)) && 0 <= i < |messages|
      && Get(messages[i], "content") == Some(Array(blocks)) && 0 <= j < |blocks|
      && Get(GetOrNull(blocks[j], "citations"), "enabled") == Some(Bool(true))
  }

  lemma CitationsExactly(root: Value)
    ensures Citations(root) <==> WantsCitations(root)
  {
    if Citations(root) {
      var i :| 0 <= i < |Messages(root)| && CitesIn(Messages(root)[i]);
      var m := Messages(root)[i];
      var j :| 0 <= j < |GetItems(m, "content")| && Cites(GetItems(m, "content")[j]);
      assert Get(root, "messages") == Some(Array(Messages(root)));
      assert Get(m, "content") == Some(Array(GetItems(m, "content")));
      assert Get(GetOrNull(GetItems(m, "content")[j], "citations"), "enabled") == Some(Bool(true));
    }
    if WantsCitations(root) {
      var messages, i, blocks, j :|
        && Get(root, "messages") == Some(Array(messages)) && 0 <= i < |messages|
        && Get(messages[i], "content") == Some(Array(blocks)) && 0 <= j < |blocks|
        && Get(GetOrNull(blocks[j], "citations"), "enabled") == Some(Bool(true));
      assert Cites(GetItems(messages[i], "content")[j]);
      assert CitesIn(Messages(root)[i]);
    }
  }

  /** Somewhere in the body, on a tool, a block of the system, a block of a message or the body
      itself, stands a breakpoint of this lifetime. */
  ghost predicate Carries(root: Value, t: Ttl) {
    || Breakpoint(root) == Some(t)
    || OneCarries(Tools(root), t) || OneCarries(System(root), t)
    || exists i :: 0 <= i < |Messages(root)| && OneCarries(GetItems(Messages(root)[i], "content"), t)
  }

  ghost predicate OneCarries(blocks: seq<Value>, t: Ttl) {
    exists i :: 0 <= i < |blocks| && Breakpoint(blocks[i]) == Some(t)
  }

  /** A message's breakpoint is the longest of its blocks. */
  lemma MessageBreakpointExactly(m: Value)
    ensures var blocks := GetItems(m, "content");
            && (MessageBreakpoint(m) == Some(OneHour) <==> OneCarries(blocks, OneHour))
            && (MessageBreakpoint(m) == Some(FiveMin) <==> OneCarries(blocks, FiveMin) && !OneCarries(blocks, OneHour))
  {
    var blocks := GetItems(m, "content");
    LongestExactly(BreakpointsOf(blocks));
    forall t: Ttl ensures Some(t) in BreakpointsOf(blocks) <==> OneCarries(blocks, t) {
      if Some(t) in BreakpointsOf(blocks) {
        var i :| 0 <= i < |blocks| && BreakpointsOf(blocks)[i] == Some(t);
        assert Breakpoint(blocks[i]) == Some(t);
      }
      if OneCarries(blocks, t) {
        var i :| 0 <= i < |blocks| && Breakpoint(blocks[i]) == Some(t);
        assert BreakpointsOf(blocks)[i] == Some(t);
      }
    }
  }

  lemma LongestExactly(bps: seq<Option<Ttl>>)
    ensures LongestOf(bps) == Some(OneHour) <==> Some(OneHour) in bps
    ensures LongestOf(bps) == Some(FiveMin) <==> Some(FiveMin) in bps && Some(OneHour) !in bps
  {
  }

  /** The longest lifetime of a request is an hour exactly when some breakpoint of the body is, and
      five minutes exactly when there are only such. */
  lemma LongestFollowsTheBody(c: Codec, root: Value)
    requires root.Object?
    ensures var longest := Analyze(c, root).value.layout.ttlMax;
            && (longest == Some(OneHour) <==> Carries(root, OneHour))
            && (longest == Some(FiveMin) <==> Carries(root, FiveMin) && !Carries(root, OneHour))
  {
    var (tools, system) := (BlockParts(c, Tools(root)), BlockParts(c, System(root)));
    var msgs := MessageParts(c, Messages(root));
    var all := Bps(tools + system + msgs) + [Breakpoint(root)];
    LongestExactly(all);
    PartsCarry(c, Tools(root));
    PartsCarry(c, System(root));
    MessagesCarry(c, Messages(root));
    BpsTogether(tools, system, msgs, Breakpoint(root));
  }

  lemma BpsTogether(a: seq<Part>, b: seq<Part>, d: seq<Part>, auto: Option<Ttl>)
    ensures forall t :: t in Bps(a + b + d) + [auto] <==> t in Bps(a) || t in Bps(b) || t in Bps(d) || t == auto
  {
    assert Bps(a + b + d) == Bps(a) + Bps(b) + Bps(d);
  }

  lemma PartsCarry(c: Codec, blocks: seq<Value>)
    ensures forall t :: Some(t) in Bps(BlockParts(c, blocks)) <==> OneCarries(blocks, t)
  {
    var bps := Bps(BlockParts(c, blocks));
    forall t ensures Some(t) in bps <==> OneCarries(blocks, t) {
      if Some(t) in bps {
        var i :| 0 <= i < |bps| && bps[i] == Some(t);
        assert Breakpoint(blocks[i]) == Some(t);
      }
      if OneCarries(blocks, t) {
        var i :| 0 <= i < |blocks| && Breakpoint(blocks[i]) == Some(t);
        assert bps[i] == Some(t);
      }
    }
  }

  /** Only the longest of a message's breakpoints is listed. */
  lemma MessagesCarry(c: Codec, messages: seq<Value>)
    ensures var bps := Bps(MessageParts(c, messages));
            && (Some(OneHour) in bps <==>
                  exists i :: 0 <= i < |messages| && OneCarries(GetItems(messages[i], "content"), OneHour))
            && (Some(FiveMin) in bps ==>
                  exists i :: 0 <= i < |messages| && OneCarries(GetItems(messages[i], "content"), FiveMin))
            && (forall i :: 0 <= i < |messages| && OneCarries(GetItems(messages[i], "content"), FiveMin) ==>
                  Some(FiveMin) in bps || Some(OneHour) in bps)
  {
    var bps := Bps(MessageParts(c, messages));
    forall i | 0 <= i < |messages|
      ensures var blocks := GetItems(messages[i], "content");
              && (bps[i] == Some(OneHour) <==> OneCarries(blocks, OneHour))
              && (bps[i] == Some(FiveMin) <==> OneCarries(blocks, FiveMin) && !OneCarries(blocks, OneHour))
    {
      MessageBreakpointExactly(messages[i]);
    }
  }

  /** The prefix ends at the last breakpoint of the body's system, else of its tools, and lives as
      long as that says. */
  lemma PrefixFollowsTheBody(c: Codec, root: Value)
    requires root.Object?
    ensures var l := Analyze(c, root).value.layout;
            if exists t :: OneCarries(System(root), t) then
              l.prefixTools == |Tools(root)| && LastCarries(System(root), l.prefixSystem, l.ttl)
            else if exists t :: OneCarries(Tools(root), t) then
              l.prefixSystem == 0 && LastCarries(Tools(root), l.prefixTools, l.ttl)
            else l.prefixTools == |Tools(root)| && l.prefixSystem == |System(root)| && l.ttl == None
  {
    var (tools, system) := (BlockParts(c, Tools(root)), BlockParts(c, System(root)));
    PrefixEndsAtLast(tools, system, MessageParts(c, Messages(root)), Breakpoint(root));
    CarriesBreakpoint(c, Tools(root));
    CarriesBreakpoint(c, System(root));
  }

  /** The first `n` blocks end at a breakpoint of this lifetime, and none stands behind them. */
  ghost predicate LastCarries(blocks: seq<Value>, n: nat, t: Option<Ttl>) {
    && 0 < n <= |blocks| && t.Some? && Breakpoint(blocks[n - 1]) == t
    && forall i :: n <= i < |blocks| ==> Breakpoint(blocks[i]) == None
  }

  lemma CarriesBreakpoint(c: Codec, blocks: seq<Value>)
    ensures HasBreakpoint(BlockParts(c, blocks)) <==> exists t :: OneCarries(blocks, t)
    ensures forall n: nat :: EndsAtLast(BlockParts(c, blocks), n) ==> LastCarries(blocks, n, Breakpoint(blocks[n - 1]))
  {
    var parts := BlockParts(c, blocks);
    if HasBreakpoint(parts) {
      var i :| 0 <= i < |parts| && parts[i].bp.Some?;
      assert OneCarries(blocks, Breakpoint(blocks[i]).value);
    }
    if t :| OneCarries(blocks, t) {
      var i :| 0 <= i < |blocks| && Breakpoint(blocks[i]) == Some(t);
      assert parts[i].bp.Some?;
    }
    forall n: nat | EndsAtLast(parts, n) ensures LastCarries(blocks, n, Breakpoint(blocks[n - 1])) {
      assert parts[n - 1].bp == Breakpoint(blocks[n - 1]);
      forall i | n <= i < |blocks| ensures Breakpoint(blocks[i]) == None {
        assert parts[i].bp == None;
      }
    }
  }

  /** A block carries a breakpoint exactly if its `cache_control` is ephemeral; it lives for an
      hour if that says so, and for five minutes otherwise. */
  lemma BreakpointExactly(block: Value)
    ensures Breakpoint(block) != None <==> GetStr(GetOrNull(block, "cache_control"), "type") == Some("ephemeral")
    ensures Breakpoint(block) != None ==>
              (Duration(Breakpoint(block).value) == 60 * 60 * 1000 <==>
                  GetStr(GetOrNull(block, "cache_control"), "ttl") == Some("1h"))
    ensures Breakpoint(block) != None ==> Duration(Breakpoint(block).value) in {5 * 60 * 1000, 60 * 60 * 1000}
  {
  }

  lemma SettingsAreFour(root: Value)
    ensures var s := Settings(root);
            && Get(s, "thinking") == Some(GetOrNull(root, "thinking")) && Get(s, "effort") == Some(Effort(root))
            && Get(s, "speed") == Some(GetOrNull(root, "speed")) && Get(s, "citations") == Some(Bool(Citations(root)))
  {
    assert "thinking" != "effort" && "thinking" != "speed" && "thinking" != "citations";
    assert "effort" != "speed" && "effort" != "citations" && "speed" != "citations";
  }
}
