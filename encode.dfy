/**
 * The serialisers: a schema written back as a JSON document. A directory's
 * entries come out in the iteration order of its hash map, not in its `ord`;
 * each map has its own order, so the encoder takes an order per directory as
 * a parameter. Re-decoding the output gives back the schema with each `ord`
 * replaced by its directory's iteration order, except that the options
 * serialiser writes `mode` as a number the decoder refuses.
 */
module Encode {
  import opened Wrappers
  import opened Json
  import opened Schema
  import opened Decode
  import opened DecodeLaws

  // ---------------------------------------------------------------------------
  // Iteration order of a hash map

  /** `ks` lists every key of `keys`, and as many entries as keys: each key exactly once. */
  ghost predicate IsListing(ks: seq<string>, keys: set<string>) {
    && |ks| == |keys|
    && (forall k :: k in ks <==> k in keys)
  }

  /**
   * The iteration order of every directory, named by the keys leading to it
   * from the root: each hash map has an order of its own.
   */
  type KeyOrder = (seq<string>, set<string>) -> seq<string>

  /** For every directory and every key set, a listing of it. */
  ghost predicate IsKeyOrder(order: KeyOrder) {
    forall at, keys :: IsListing(order(at, keys), keys)
  }

  // ---------------------------------------------------------------------------
  // Encoding

  /**
   * How `mode` is written: as the number the serialiser emits, or as the
   * octal string the decoder reads.
   */
  datatype ModeStyle = ModeAsNumber | ModeAsOctal

  function EncodeMode(m: u32, style: ModeStyle): Json {
    match style
    case ModeAsNumber => JNumber(m as int)
    case ModeAsOctal => JString(ToOctal(m as nat))
  }

  /** ftype, defer and internal always, mode only when it is set. */
  function EncodeOptions(o: FileOptions, style: ModeStyle): (j: Json)
    ensures j.JObject?
    ensures KeysOf(j.entries) == ["ftype", "defer", "internal"] + (if o.mode.Some? then ["mode"] else [])
  {
    JObject([("ftype", JString(FileTypeName(o.ftype))), ("defer", JNumber(o.defer as int)), ("internal", JBool(o.internal))]
            + (if o.mode.Some? then [("mode", EncodeMode(o.mode.value, style))] else []))
  }

  /**
   * A file is the pair [options, data], a directory the map of its contents in
   * iteration order (its `ord` is not consulted), a comment its string.
   */
  function EncodeNode(n: Node, at: seq<string>, order: KeyOrder, style: ModeStyle): (j: Json)
    requires IsKeyOrder(order)
    ensures n.File? <==> j.JArray?
    ensures n.Directory? <==> j.JObject?
    ensures n.Comment? <==> j.JString?
    ensures n.Directory? ==> KeysOf(j.entries) == order(at, n.contents.Keys)
    decreases n
  {
    match n
    case File(data, options) => JArray([EncodeOptions(options, style), JString(data)])
    case Directory(contents, _) =>
      var ks := order(at, contents.Keys);
      assert IsListing(ks, contents.Keys);
      JObject(seq(|ks|, i requires 0 <= i < |ks| => (ks[i], EncodeNode(contents[ks[i]], at + [ks[i]], order, style))))
    case Comment(text) => JString(text)
  }

  function EncodeStrings(commands: seq<string>): (j: Json)
    ensures j.JArray? && |j.items| == |commands|
    ensures forall i :: 0 <= i < |commands| ==> j.items[i] == JString(commands[i])
  {
    JArray(seq(|commands|, i requires 0 <= i < |commands| => JString(commands[i])))
  }

  /** The document: root, prebuild and postbuild, in that order. */
  function EncodeSchema(s: FSchema, order: KeyOrder, style: ModeStyle): (j: Json)
    requires IsKeyOrder(order)
    ensures j.JObject? && KeysOf(j.entries) == ["root", "prebuild", "postbuild"]
  {
    JObject([("root", EncodeNode(RootDirectory(s), [], order, style)),
             ("prebuild", EncodeStrings(s.prebuild)),
             ("postbuild", EncodeStrings(s.postbuild))])
  }

  // ---------------------------------------------------------------------------
  // The round trip

  /** The tree at `at` with every directory's `ord` replaced by the iteration order of its keys. */
  function WithOrd(n: Node, at: seq<string>, order: KeyOrder): (r: Node)
    ensures r.File? == n.File? && r.Directory? == n.Directory? && r.Comment? == n.Comment?
    ensures r.Directory? ==> r.contents.Keys == n.contents.Keys && r.ord == order(at, n.contents.Keys)
    ensures !n.Directory? ==> r == n
    decreases n
  {
    match n
    case Directory(contents, _) =>
      Directory(map k | k in contents :: WithOrd(contents[k], at + [k], order), order(at, contents.Keys))
    case _ => n
  }

  /** No file in the tree has a mode. */
  predicate NoMode(n: Node)
    decreases n
  {
    match n
    case File(_, options) => options.mode.None?
    case Directory(contents, _) => forall k :: k in contents ==> NoMode(contents[k])
    case Comment(_) => true
  }

  lemma OptionsRoundTrip(o: FileOptions, style: ModeStyle)
    requires style == ModeAsOctal || o.mode.None?
    ensures DecodeOptions(EncodeOptions(o, style).entries) == Ok(o)
  {
    var es := EncodeOptions(o, style).entries;
    assert DecodeFileType(es[0].1) == Ok(o.ftype);
    var o1 := DefaultOptions.(ftype := o.ftype);
    var o2 := o1.(defer := o.defer);
    var o3 := o2.(internal := o.internal);
    assert DecodeOptionsFrom(es, 0, DefaultOptions) == DecodeOptionsFrom(es, 1, o1);
    assert DecodeOptionsFrom(es, 1, o1) == DecodeOptionsFrom(es, 2, o2);
    assert DecodeOptionsFrom(es, 2, o2) == DecodeOptionsFrom(es, 3, o3);
    if o.mode.Some? {
      OctalRoundTrip(o.mode.value);
      assert DecodeOptionsFrom(es, 3, o3) == DecodeOptionsFrom(es, 4, o);
    }
  }

  /**
   * As written, a set mode is emitted as a number, and the decoder, which reads
   * `mode` as a string, rejects the encoded options.
   */
  lemma ModeBreaksRoundTrip(o: FileOptions)
    requires o.mode.Some?
    ensures DecodeOptions(EncodeOptions(o, ModeAsNumber).entries) == Err(InvalidType("a string"))
  {
    var es := EncodeOptions(o, ModeAsNumber).entries;
    assert DecodeFileType(es[0].1) == Ok(o.ftype);
    var o1 := DefaultOptions.(ftype := o.ftype);
    var o2 := o1.(defer := o.defer);
    var o3 := o2.(internal := o.internal);
    assert DecodeOptionsFrom(es, 0, DefaultOptions) == DecodeOptionsFrom(es, 1, o1);
    assert DecodeOptionsFrom(es, 1, o1) == DecodeOptionsFrom(es, 2, o2);
    assert DecodeOptionsFrom(es, 2, o2) == DecodeOptionsFrom(es, 3, o3);
  }

  /** A file with mode 0o755, encoded as written, does not decode again. */
  lemma ModeCounterexample(order: KeyOrder)
    requires IsKeyOrder(order)
    ensures DecodeNode(EncodeNode(File("", DefaultOptions.(mode := Some(493))), [], order, ModeAsNumber))
            == Err(InvalidType("a string"))
  {
    var o := DefaultOptions.(mode := Some(493));
    var items := EncodeNode(File("", o), [], order, ModeAsNumber).items;
    ModeBreaksRoundTrip(o);
    assert !FileElement(items[0]);
    FileRejectsBadElement(items, 0);
  }

  /** The decoded contents after the first `i` keys of `ks`. */
  function Decoded(n: Node, at: seq<string>, order: KeyOrder, ks: seq<string>, i: nat): map<string, Node>
    requires n.Directory? && i <= |ks|
  {
    map k | k in n.contents && k in ks[..i] :: WithOrd(n.contents[k], at + [k], order)
  }

  lemma DecodedStep(n: Node, at: seq<string>, order: KeyOrder, ks: seq<string>, i: nat)
    requires n.Directory? && i < |ks| && ks[i] in n.contents
    ensures Decoded(n, at, order, ks, i)[ks[i] := WithOrd(n.contents[ks[i]], at + [ks[i]], order)]
            == Decoded(n, at, order, ks, i + 1)
  {
    assert ks[..i + 1] == ks[..i] + [ks[i]];
  }

  lemma DecodedEnds(n: Node, at: seq<string>, order: KeyOrder, ks: seq<string>)
    requires n.Directory? && IsListing(ks, n.contents.Keys)
    ensures Decoded(n, at, order, ks, 0) == map[]
    ensures Decoded(n, at, order, ks, |ks|) == WithOrd(n, at, order).contents
  {
    assert ks[..|ks|] == ks;
  }

  lemma EncodedEntry(n: Node, at: seq<string>, order: KeyOrder, style: ModeStyle, i: nat)
    requires IsKeyOrder(order) && n.Directory? && i < |order(at, n.contents.Keys)|
    ensures order(at, n.contents.Keys)[i] in n.contents
    ensures var k := order(at, n.contents.Keys)[i];
            EncodeNode(n, at, order, style).entries[i] == (k, EncodeNode(n.contents[k], at + [k], order, style))
  {
    assert IsListing(order(at, n.contents.Keys), n.contents.Keys);
  }

  lemma EntriesStep(j: Json, i: nat, contents: map<string, Node>, ord: seq<string>, node: Node,
                    contents': map<string, Node>, ord': seq<string>)
    requires j.JObject? && i < |j.entries| && DecodeNode(j.entries[i].1) == Ok(node)
    requires contents' == contents[j.entries[i].0 := node] && ord' == ord + [j.entries[i].0]
    ensures DecodeEntries(j, i, contents, ord) == DecodeEntries(j, i + 1, contents', ord')
  {
  }

  lemma {:induction false} NodeRoundTrip(n: Node, at: seq<string>, order: KeyOrder, style: ModeStyle)
    requires IsKeyOrder(order) && NodeValid(n) && (style == ModeAsOctal || NoMode(n))
    ensures DecodeNode(EncodeNode(n, at, order, style)) == Ok(WithOrd(n, at, order))
    decreases n, 1
  {
    match n {
      case File(data, options) =>
        var items := EncodeNode(n, at, order, style).items;
        OptionsRoundTrip(options, style);
        assert FileElement(items[0]) && FileElement(items[1]);
        FileFirstWins(items);
        assert FirstOptions(items) == Some(options);
        assert FirstString(items) == Some(data);
      case Directory(contents, _) =>
        var ks := order(at, contents.Keys);
        assert IsListing(ks, contents.Keys);
        EntriesRoundTrip(n, at, order, style, 0);
        DecodedEnds(n, at, order, ks);
        assert ks[..0] == [];
      case Comment(_) =>
    }
  }

  /** An entry that decodes to the node it names moves the decoder one step along the listing. */
  lemma EntryRoundTrip(n: Node, at: seq<string>, order: KeyOrder, j: Json, ks: seq<string>, i: nat)
    requires n.Directory? && j.JObject? && i < |j.entries| && i < |ks|
    requires ks[i] in n.contents && j.entries[i].0 == ks[i]
    requires DecodeNode(j.entries[i].1) == Ok(WithOrd(n.contents[ks[i]], at + [ks[i]], order))
    ensures DecodeEntries(j, i, Decoded(n, at, order, ks, i), ks[..i])
            == DecodeEntries(j, i + 1, Decoded(n, at, order, ks, i + 1), ks[..i + 1])
  {
    DecodedStep(n, at, order, ks, i);
    assert ks[..i + 1] == ks[..i] + [ks[i]];
    EntriesStep(j, i, Decoded(n, at, order, ks, i), ks[..i], WithOrd(n.contents[ks[i]], at + [ks[i]], order),
                Decoded(n, at, order, ks, i + 1), ks[..i + 1]);
  }

  lemma {:induction false} EntriesRoundTrip(n: Node, at: seq<string>, order: KeyOrder, style: ModeStyle, i: nat)
    requires IsKeyOrder(order) && NodeValid(n) && (style == ModeAsOctal || NoMode(n))
    requires n.Directory? && i <= |order(at, n.contents.Keys)|
    ensures var ks := order(at, n.contents.Keys);
            DecodeEntries(EncodeNode(n, at, order, style), i, Decoded(n, at, order, ks, i), ks[..i])
            == Ok(WithOrd(n, at, order))
    decreases n, 0, |order(at, n.contents.Keys)| - i
  {
    var ks := order(at, n.contents.Keys);
    assert IsListing(ks, n.contents.Keys);
    if i == |ks| {
      assert ks[..i] == ks;
      DecodedEnds(n, at, order, ks);
    } else {
      EncodedEntry(n, at, order, style, i);
      NodeRoundTrip(n.contents[ks[i]], at + [ks[i]], order, style);
      EntryRoundTrip(n, at, order, EncodeNode(n, at, order, style), ks, i);
      EntriesRoundTrip(n, at, order, style, i + 1);
    }
  }

  /**
   * Decoding what the encoder wrote, with `mode` written as octal text, gives
   * back the tree up to the key order of its directories, whatever order each
   * directory is written in.
   */
  lemma RoundTrip(n: Node, at: seq<string>, order: KeyOrder)
    requires IsKeyOrder(order) && NodeValid(n)
    ensures DecodeNode(EncodeNode(n, at, order, ModeAsOctal)) == Ok(WithOrd(n, at, order))
  {
    NodeRoundTrip(n, at, order, ModeAsOctal);
  }

  /** As written, the round trip holds for every tree in which no file has a mode. */
  lemma RoundTripAsWritten(n: Node, at: seq<string>, order: KeyOrder)
    requires IsKeyOrder(order) && NodeValid(n) && NoMode(n)
    ensures DecodeNode(EncodeNode(n, at, order, ModeAsNumber)) == Ok(WithOrd(n, at, order))
  {
    NodeRoundTrip(n, at, order, ModeAsNumber);
  }

  lemma {:induction false} StringItemsRoundTrip(items: seq<Json>, commands: seq<string>)
    requires |items| == |commands| && forall i :: 0 <= i < |items| ==> items[i] == JString(commands[i])
    ensures DecodeStringItems(items) == Ok(commands)
  {
    if items != [] {
      StringItemsRoundTrip(items[1..], commands[1..]);
      assert commands == [commands[0]] + commands[1..];
    }
  }

  lemma StringsRoundTrip(commands: seq<string>)
    ensures DecodeStrings(EncodeStrings(commands)) == Ok(commands)
  {
    StringItemsRoundTrip(EncodeStrings(commands).items, commands);
  }

  /**
   * A whole document round-trips: the hooks exactly, the root up to the key
   * order of its directories (with `mode` written as octal text).
   */
  lemma SchemaRoundTrip(s: FSchema, order: KeyOrder, style: ModeStyle)
    requires IsKeyOrder(order) && SchemaValid(s) && (style == ModeAsOctal || NoMode(RootDirectory(s)))
    ensures var d := WithOrd(RootDirectory(s), [], order);
            DecodeSchema(EncodeSchema(s, order, style))
            == Ok(FSchema(d.contents, order([], s.root.Keys), s.prebuild, s.postbuild))
  {
    var es := EncodeSchema(s, order, style).entries;
    var d := WithOrd(RootDirectory(s), [], order);
    NodeRoundTrip(RootDirectory(s), [], order, style);
    assert DecodeRoot(es[0].1) == Ok((d.contents, d.ord));
    StringsRoundTrip(s.prebuild);
    StringsRoundTrip(s.postbuild);
    var s1 := DefaultSchema.(root := d.contents, rootOrd := d.ord);
    var s2 := s1.(prebuild := s.prebuild);
    assert DecodeSchemaFrom(es, 0, DefaultSchema) == DecodeSchemaFrom(es, 1, s1);
    assert DecodeSchemaFrom(es, 1, s1) == DecodeSchemaFrom(es, 2, s2);
    assert DecodeSchemaFrom(es, 2, s2) == DecodeSchemaFrom(es, 3, s2.(postbuild := s.postbuild));
  }
}
