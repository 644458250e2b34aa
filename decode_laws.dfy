/**
 * What the decoder promises: the shape of a value decides its meaning, a file
 * sequence keeps its first options and first data, objects keep the last value
 * of a repeated key, unknown keys are rejected, and every decoded file carries
 * content its type accepts.
 */
module DecodeLaws {
  import opened Wrappers
  import opened Json
  import opened Content
  import opened Schema
  import opened Decode

  // ---------------------------------------------------------------------------
  // Shape dispatch

  lemma {:induction false} EntriesGiveDirectory(j: Json, i: nat, contents: map<string, Node>, ord: seq<string>)
    requires j.JObject? && i <= |j.entries|
    ensures DecodeEntries(j, i, contents, ord).Ok? ==> DecodeEntries(j, i, contents, ord).value.Directory?
    decreases |j.entries| - i
  {
    if i < |j.entries| {
      var node := DecodeNode(j.entries[i].1);
      if node.Ok? {
        EntriesGiveDirectory(j, i + 1, contents[j.entries[i].0 := node.value], ord + [j.entries[i].0]);
      }
    }
  }

  /** A map is a directory, a sequence a file, a string a comment; anything else is an error. */
  lemma NodeShape(j: Json)
    ensures j.JString? ==> DecodeNode(j) == Ok(Comment(j.str))
    ensures j.JNumber? || j.JBool? || j.JNull? ==> DecodeNode(j) == Err(InvalidType("a file or directory"))
    ensures DecodeNode(j).Ok? ==>
              (DecodeNode(j).value.Directory? <==> j.JObject?)
              && (DecodeNode(j).value.File? <==> j.JArray?)
              && (DecodeNode(j).value.Comment? <==> j.JString?)
  {
    if j.JObject? {
      EntriesGiveDirectory(j, 0, map[], []);
    }
  }

  // ---------------------------------------------------------------------------
  // Directories: every key recorded in order, the last value of a key kept

  /** One step of `LastValue`: a later occurrence of the key wins over the first entry. */
  lemma LastValueStep(rest: seq<(string, Json)>, key: string)
    requires rest != []
    ensures LastValue(rest, key)
            == if LastValue(rest[1..], key).Some? then LastValue(rest[1..], key)
               else if rest[0].0 == key then Some(rest[0].1) else None
  {
  }

  lemma {:induction false} EntriesOk(j: Json, i: nat, contents: map<string, Node>, ord: seq<string>)
    requires j.JObject? && i <= |j.entries|
    ensures DecodeEntries(j, i, contents, ord).Ok?
            <==> forall k :: i <= k < |j.entries| ==> DecodeNode(j.entries[k].1).Ok?
    decreases |j.entries| - i
  {
    if i < |j.entries| {
      var node := DecodeNode(j.entries[i].1);
      if node.Ok? {
        EntriesOk(j, i + 1, contents[j.entries[i].0 := node.value], ord + [j.entries[i].0]);
      }
    }
  }

  /** Decoding the entries from `i` on appends their keys, in order, to `ord`. */
  lemma {:induction false} EntriesKeys(j: Json, i: nat, contents: map<string, Node>, ord: seq<string>)
    requires j.JObject? && i <= |j.entries|
    requires DecodeEntries(j, i, contents, ord).Ok?
    ensures var d := DecodeEntries(j, i, contents, ord).value;
            d.Directory? && d.ord == ord + KeysOf(j.entries[i..])
    decreases |j.entries| - i
  {
    var rest := j.entries[i..];
    if i == |j.entries| {
      assert rest == [];
    } else {
      var key0 := j.entries[i].0;
      var node := DecodeNode(j.entries[i].1).value;
      EntriesKeys(j, i + 1, contents[key0 := node], ord + [key0]);
      assert rest[0].0 == key0 && rest[1..] == j.entries[i + 1..];
      assert KeysOf(rest) == [key0] + KeysOf(rest[1..]);
    }
  }

  /** Decoding the entries from `i` on adds to `contents` the last value of each of their keys. */
  lemma {:induction false} EntriesContents(j: Json, i: nat, contents: map<string, Node>, ord: seq<string>)
    requires j.JObject? && i <= |j.entries|
    requires DecodeEntries(j, i, contents, ord).Ok?
    ensures var d := DecodeEntries(j, i, contents, ord).value;
            d.Directory? && ContentsFrom(d.contents, contents, j.entries[i..])
    decreases |j.entries| - i
  {
    var rest := j.entries[i..];
    if i == |j.entries| {
      assert rest == [];
    } else {
      var (key0, value0) := j.entries[i];
      var node := DecodeNode(value0).value;
      var contents' := contents[key0 := node];
      EntriesContents(j, i + 1, contents', ord + [key0]);
      assert rest[0] == (key0, value0) && rest[1..] == j.entries[i + 1..];
      ContentsStep(DecodeEntries(j, i, contents, ord).value.contents, contents, rest, node);
    }
  }

  /**
   * `dc` holds the keys of `contents` and those of `rest`: each key of `rest`
   * the decoding of its last value there, each other key its node in `contents`.
   */
  ghost predicate ContentsFrom(dc: map<string, Node>, contents: map<string, Node>, rest: seq<(string, Json)>) {
    && (forall key :: key in dc <==> key in contents || LastValue(rest, key).Some?)
    && (forall key :: key in dc && LastValue(rest, key).Some? ==> DecodeNode(LastValue(rest, key).value) == Ok(dc[key]))
    && (forall key :: key in dc && LastValue(rest, key).None? ==> dc[key] == contents[key])
  }

  /** Inserting the first entry's node before decoding the rest gives the contents of the whole. */
  lemma ContentsStep(dc: map<string, Node>, contents: map<string, Node>, rest: seq<(string, Json)>, node: Node)
    requires rest != [] && DecodeNode(rest[0].1) == Ok(node)
    requires ContentsFrom(dc, contents[rest[0].0 := node], rest[1..])
    ensures ContentsFrom(dc, contents, rest)
  {
    forall key
      ensures key in dc <==> key in contents || LastValue(rest, key).Some?
      ensures key in dc && LastValue(rest, key).Some? ==> DecodeNode(LastValue(rest, key).value) == Ok(dc[key])
      ensures key in dc && LastValue(rest, key).None? ==> dc[key] == contents[key]
    {
      LastValueStep(rest, key);
    }
  }

  /**
   * A directory decodes iff every value does; its `ord` lists every key in
   * document order, repeats included, and its contents hold, for each key,
   * the decoding of the key's last value.
   */
  lemma DirectoryDecoding(entries: seq<(string, Json)>)
    ensures DecodeNode(JObject(entries)).Ok?
            <==> forall k :: 0 <= k < |entries| ==> DecodeNode(entries[k].1).Ok?
    ensures var r := DecodeNode(JObject(entries));
            r.Ok? ==>
              && r.value.Directory?
              && r.value.ord == KeysOf(entries)
              && (forall key :: key in r.value.contents <==> LastValue(entries, key).Some?)
              && (forall key :: key in r.value.contents ==>
                    DecodeNode(LastValue(entries, key).value) == Ok(r.value.contents[key]))
  {
    var j := JObject(entries);
    EntriesOk(j, 0, map[], []);
    if DecodeEntries(j, 0, map[], []).Ok? {
      EntriesKeys(j, 0, map[], []);
      EntriesContents(j, 0, map[], []);
    }
    assert entries[0..] == entries;
  }

  // ---------------------------------------------------------------------------
  // Files: first options and first data win

  /** An element a file sequence accepts: a data string or a well-formed options object. */
  predicate FileElement(j: Json) {
    j.JString? || (j.JObject? && DecodeOptions(j.entries).Ok?)
  }

  function FirstString(items: seq<Json>): Option<string> {
    if items == [] then None
    else if items[0].JString? then Some(items[0].str)
    else FirstString(items[1..])
  }

  function FirstOptions(items: seq<Json>): Option<FileOptions> {
    if items == [] then None
    else if items[0].JObject? then
      (if DecodeOptions(items[0].entries).Ok? then Some(DecodeOptions(items[0].entries).value) else None)
    else FirstOptions(items[1..])
  }

  lemma {:induction false} ScanFirstWins(items: seq<Json>, i: nat, options: Option<FileOptions>, data: Option<string>)
    requires i <= |items|
    requires forall k :: i <= k < |items| ==> FileElement(items[k])
    ensures ScanFile(items, i, options, data)
            == Ok((if options.Some? then options else FirstOptions(items[i..]),
                   if data.Some? then data else FirstString(items[i..])))
    decreases |items| - i
  {
    if i < |items| {
      assert items[i..][0] == items[i] && items[i..][1..] == items[i + 1..];
      match items[i] {
        case JObject(entries) =>
          var o := DecodeOptions(entries).value;
          ScanFirstWins(items, i + 1, if options.None? then Some(o) else options, data);
        case JString(s) =>
          ScanFirstWins(items, i + 1, options, if data.None? then Some(s) else data);
      }
    }
  }

  /**
   * A sequence of well-formed elements is the file made of its first options
   * object (or the defaults) and its first string; without a string it is the
   * "Expected file data" error.
   */
  lemma FileFirstWins(items: seq<Json>)
    requires forall k :: 0 <= k < |items| ==> FileElement(items[k])
    ensures DecodeFile(items) == BuildFile(FirstOptions(items), FirstString(items))
    ensures FirstString(items).None? ==> DecodeFile(items) == Err(MissingData)
    ensures FirstString(items).Some? && DataValid(FirstOptions(items).GetOr(DefaultOptions).ftype, FirstString(items).value)
            ==> DecodeFile(items) == Ok(File(FirstString(items).value, FirstOptions(items).GetOr(DefaultOptions)))
  {
    ScanFirstWins(items, 0, None, None);
    assert items[0..] == items;
  }

  lemma {:induction false} ScanStopsAtBadElement(items: seq<Json>, i: nat, k: nat, options: Option<FileOptions>, data: Option<string>)
    requires i <= k < |items|
    requires forall m :: i <= m < k ==> FileElement(items[m])
    requires !FileElement(items[k])
    ensures DecodeInner(items[k]).Err?
    ensures ScanFile(items, i, options, data) == Err(DecodeInner(items[k]).error)
    decreases k - i
  {
    if i < k {
      match items[i] {
        case JObject(entries) =>
          var o := DecodeOptions(entries).value;
          ScanStopsAtBadElement(items, i + 1, k, if options.None? then Some(o) else options, data);
        case JString(s) =>
          ScanStopsAtBadElement(items, i + 1, k, options, if data.None? then Some(s) else data);
      }
    }
  }

  /**
   * The first element that is neither a string nor a well-formed options
   * object fails the whole file, with the element's own error.
   */
  lemma FileRejectsBadElement(items: seq<Json>, k: nat)
    requires k < |items|
    requires forall m :: 0 <= m < k ==> FileElement(items[m])
    requires !FileElement(items[k])
    ensures DecodeFile(items).Err? && DecodeInner(items[k]).Err?
    ensures DecodeFile(items) == Err(DecodeInner(items[k]).error)
    ensures !items[k].JObject? ==> DecodeFile(items) == Err(InvalidType("either file options or file data"))
  {
    ScanStopsAtBadElement(items, 0, k, None, None);
  }

  /**
   * The content check accepts exactly the data its type accepts: Hex data of
   * even length made of hex digits, Bits data a multiple of 8 long made of 0
   * and 1, anything for the other types; a wrong length is reported before a
   * wrong character.
   */
  lemma ContentCheck(ftype: FileType, data: string)
    ensures CheckContent(ftype, data).None? <==> DataValid(ftype, data)
    ensures ftype == Hex && |data| % 2 != 0 ==> CheckContent(ftype, data) == Some(HexLength)
    ensures ftype == Hex && |data| % 2 == 0 && !AllHexDigits(data) ==> CheckContent(ftype, data) == Some(HexDigits)
    ensures ftype == Bits && |data| % 8 != 0 ==> CheckContent(ftype, data) == Some(BitsLength)
    ensures ftype == Bits && |data| % 8 == 0 && !AllBitDigits(data) ==> CheckContent(ftype, data) == Some(BitsDigits)
  {
  }

  /** The source's own example, and each content error of a Hex file, on a two-element file. */
  lemma FileContentExamples()
    ensures DecodeFile([JObject([("ftype", JString("Hex"))]), JString("00aF")])
            == Ok(File("00aF", DefaultOptions.(ftype := Hex)))
    ensures DecodeFile([JObject([("ftype", JString("Hex"))]), JString("0g")]) == Err(HexDigits)
    ensures DecodeFile([JObject([("ftype", JString("Hex"))]), JString("abc")]) == Err(HexLength)
  {
    assert !IsHexDigit("0g"[1]);
  }

  /** Each content error of a Bits file. */
  lemma FileBitsExamples()
    ensures DecodeFile([JObject([("ftype", JString("Bits"))]), JString("0110000")]) == Err(BitsLength)
    ensures DecodeFile([JObject([("ftype", JString("Bits"))]), JString("0110000x")]) == Err(BitsDigits)
  {
    assert !IsBitDigit("0110000x"[7]);
  }

  /** Empty options are the defaults; a file without a string has no data. */
  lemma FileDefaultExamples()
    ensures DecodeFile([JObject([]), JString("")]) == Ok(File("", DefaultOptions))
    ensures DecodeFile([JObject([])]) == Err(MissingData)
  {
  }

  // ---------------------------------------------------------------------------
  // Options: strict keys, defaults, last occurrence wins

  /** An options entry the visitor accepts: a known key with a value of its type. */
  predicate OptionEntryOk(key: string, value: Json) {
    DecodeOptionEntry(DefaultOptions, key, value).Ok?
  }

  /** What one accepted entry changes: the field its key names, and nothing else. */
  lemma OptionEntryEffect(o: FileOptions, key: string, value: Json)
    requires DecodeOptionEntry(o, key, value).Ok?
    ensures OptionEntryOk(key, value)
    ensures var o' := DecodeOptionEntry(o, key, value).value;
            && o'.ftype == (if key == "ftype" then DecodeFileType(value).value else o.ftype)
            && o'.mode == (if key == "mode" then Some(DecodeMode(value).value) else o.mode)
            && o'.defer == (if key == "defer" then DecodeDefer(value).value else o.defer)
            && o'.internal == (if key == "internal" then DecodeInternal(value).value else o.internal)
  {
  }

  lemma {:induction false} OptionsOk(entries: seq<(string, Json)>, i: nat, o: FileOptions)
    requires i <= |entries|
    ensures DecodeOptionsFrom(entries, i, o).Ok?
            <==> forall k :: i <= k < |entries| ==> OptionEntryOk(entries[k].0, entries[k].1)
    decreases |entries| - i
  {
    if i < |entries| {
      var next := DecodeOptionEntry(o, entries[i].0, entries[i].1);
      assert next.Ok? <==> OptionEntryOk(entries[i].0, entries[i].1);
      if next.Ok? {
        OptionsOk(entries, i + 1, next.value);
      }
    }
  }

  lemma {:induction false} OptionsFrom(entries: seq<(string, Json)>, i: nat, o: FileOptions)
    requires i <= |entries|
    requires DecodeOptionsFrom(entries, i, o).Ok?
    ensures var r := DecodeOptionsFrom(entries, i, o).value;
            var rest := entries[i..];
            && (LastValue(rest, "ftype").Some? ==> DecodeFileType(LastValue(rest, "ftype").value) == Ok(r.ftype))
            && (LastValue(rest, "mode").Some? ==> r.mode.Some? && DecodeMode(LastValue(rest, "mode").value) == Ok(r.mode.value))
            && (LastValue(rest, "defer").Some? ==> DecodeDefer(LastValue(rest, "defer").value) == Ok(r.defer))
            && (LastValue(rest, "internal").Some? ==> DecodeInternal(LastValue(rest, "internal").value) == Ok(r.internal))
            && (LastValue(rest, "ftype").None? ==> r.ftype == o.ftype)
            && (LastValue(rest, "mode").None? ==> r.mode == o.mode)
            && (LastValue(rest, "defer").None? ==> r.defer == o.defer)
            && (LastValue(rest, "internal").None? ==> r.internal == o.internal)
    decreases |entries| - i
  {
    var rest := entries[i..];
    if i == |entries| {
      assert rest == [];
    } else {
      assert rest[0] == entries[i] && rest[1..] == entries[i + 1..];
      var next := DecodeOptionEntry(o, entries[i].0, entries[i].1).value;
      OptionEntryEffect(o, entries[i].0, entries[i].1);
      OptionsFrom(entries, i + 1, next);
      LastValueStep(rest, "ftype");
      LastValueStep(rest, "mode");
      LastValueStep(rest, "defer");
      LastValueStep(rest, "internal");
    }
  }

  /**
   * An options object decodes iff every key is ftype, mode, defer or internal
   * with a value of its type; each field then holds its key's last value, or
   * the default when the key is absent.
   */
  lemma OptionsDecoding(entries: seq<(string, Json)>)
    ensures DecodeOptions(entries).Ok? <==> forall k :: 0 <= k < |entries| ==> OptionEntryOk(entries[k].0, entries[k].1)
    ensures DecodeOptions(entries).Ok? ==> forall k :: 0 <= k < |entries| ==> entries[k].0 in OptionFields
    ensures var r := DecodeOptions(entries);
            r.Ok? ==>
              && (r.value.ftype == if LastValue(entries, "ftype").Some? then DecodeFileType(LastValue(entries, "ftype").value).value else Text)
              && (r.value.mode == if LastValue(entries, "mode").Some? then Some(DecodeMode(LastValue(entries, "mode").value).value) else None)
              && (r.value.defer == if LastValue(entries, "defer").Some? then DecodeDefer(LastValue(entries, "defer").value).value else 0)
              && (r.value.internal == if LastValue(entries, "internal").Some? then DecodeInternal(LastValue(entries, "internal").value).value else false)
  {
    OptionsOk(entries, 0, DefaultOptions);
    if DecodeOptions(entries).Ok? {
      OptionsFrom(entries, 0, DefaultOptions);
    }
    assert entries[0..] == entries;
  }

  lemma {:induction false} OptionsStopAt(entries: seq<(string, Json)>, i: nat, k: nat, o: FileOptions)
    requires i <= k < |entries|
    requires forall m :: i <= m < k ==> OptionEntryOk(entries[m].0, entries[m].1)
    requires !OptionEntryOk(entries[k].0, entries[k].1)
    ensures DecodeOptionsFrom(entries, i, o) == Err(DecodeOptionEntry(DefaultOptions, entries[k].0, entries[k].1).error)
    decreases k - i
  {
    OptionEntryAnyOptions(o, entries[i].0, entries[i].1);
    if i < k {
      OptionsStopAt(entries, i + 1, k, DecodeOptionEntry(o, entries[i].0, entries[i].1).value);
    }
  }

  /** Whether an entry is accepted, and the error it gives, do not depend on the options read so far. */
  lemma OptionEntryAnyOptions(o: FileOptions, key: string, value: Json)
    ensures DecodeOptionEntry(o, key, value).Ok? == OptionEntryOk(key, value)
    ensures !OptionEntryOk(key, value) ==>
              DecodeOptionEntry(o, key, value).error == DecodeOptionEntry(DefaultOptions, key, value).error
  {
  }

  /**
   * The first bad entry decides the error: an unknown key is `unknown_field`
   * (whose list names only ftype and mode), a mode that is not an octal string
   * is "expected octal number".
   */
  lemma OptionsFirstError(entries: seq<(string, Json)>, k: nat)
    requires k < |entries|
    requires forall m :: 0 <= m < k ==> OptionEntryOk(entries[m].0, entries[m].1)
    requires !OptionEntryOk(entries[k].0, entries[k].1)
    ensures entries[k].0 !in OptionFields ==> DecodeOptions(entries) == Err(UnknownField(entries[k].0, ["ftype", "mode"]))
    ensures entries[k].0 == "mode" && entries[k].1.JString? ==> DecodeOptions(entries) == Err(ExpectedOctal)
    ensures entries[k].0 == "mode" && !entries[k].1.JString? ==> DecodeOptions(entries) == Err(InvalidType("a string"))
  {
    OptionsStopAt(entries, 0, k, DefaultOptions);
  }

  // ---------------------------------------------------------------------------
  // The top level

  predicate SchemaEntryOk(key: string, value: Json) {
    DecodeSchemaEntry(DefaultSchema, key, value).Ok?
  }

  /** The root must be a map, and decodes as the directory that map is. */
  lemma RootDecoding(v: Json)
    ensures DecodeRoot(v).Ok? <==> v.JObject? && DecodeNode(v).Ok?
    ensures DecodeRoot(v).Ok? ==> DecodeNode(v) == Ok(Directory(DecodeRoot(v).value.0, DecodeRoot(v).value.1))
  {
    if v.JObject? {
      EntriesGiveDirectory(v, 0, map[], []);
    }
  }

  lemma {:induction false} SchemaOk(entries: seq<(string, Json)>, i: nat, s: FSchema)
    requires i <= |entries|
    ensures DecodeSchemaFrom(entries, i, s).Ok?
            <==> forall k :: i <= k < |entries| ==> SchemaEntryOk(entries[k].0, entries[k].1)
    decreases |entries| - i
  {
    if i < |entries| {
      var next := DecodeSchemaEntry(s, entries[i].0, entries[i].1);
      assert next.Ok? <==> SchemaEntryOk(entries[i].0, entries[i].1);
      if next.Ok? {
        SchemaOk(entries, i + 1, next.value);
      }
    }
  }

  lemma {:induction false} SchemaFrom(entries: seq<(string, Json)>, i: nat, s: FSchema)
    requires i <= |entries|
    requires DecodeSchemaFrom(entries, i, s).Ok?
    ensures var r := DecodeSchemaFrom(entries, i, s).value;
            var rest := entries[i..];
            && (LastValue(rest, "root").Some? ==> DecodeRoot(LastValue(rest, "root").value) == Ok((r.root, r.rootOrd)))
            && (LastValue(rest, "prebuild").Some? ==> DecodeStrings(LastValue(rest, "prebuild").value) == Ok(r.prebuild))
            && (LastValue(rest, "postbuild").Some? ==> DecodeStrings(LastValue(rest, "postbuild").value) == Ok(r.postbuild))
            && (LastValue(rest, "root").None? ==> r.root == s.root && r.rootOrd == s.rootOrd)
            && (LastValue(rest, "prebuild").None? ==> r.prebuild == s.prebuild)
            && (LastValue(rest, "postbuild").None? ==> r.postbuild == s.postbuild)
    decreases |entries| - i
  {
    var rest := entries[i..];
    if i == |entries| {
      assert rest == [];
    } else {
      assert rest[0] == entries[i] && rest[1..] == entries[i + 1..];
      var next := DecodeSchemaEntry(s, entries[i].0, entries[i].1).value;
      SchemaFrom(entries, i + 1, next);
      LastValueStep(rest, "root");
      LastValueStep(rest, "prebuild");
      LastValueStep(rest, "postbuild");
    }
  }

  /**
   * A document decodes iff it is an object whose keys are root, prebuild and
   * postbuild with values of their types; an absent key leaves the empty root
   * or an empty hook list, and a repeated key keeps its last value.
   */
  lemma SchemaDecoding(entries: seq<(string, Json)>)
    ensures DecodeSchema(JObject(entries)).Ok? <==> forall k :: 0 <= k < |entries| ==> SchemaEntryOk(entries[k].0, entries[k].1)
    ensures DecodeSchema(JObject(entries)).Ok? ==> forall k :: 0 <= k < |entries| ==> entries[k].0 in SchemaFields
    ensures var r := DecodeSchema(JObject(entries));
            r.Ok? ==>
              && (LastValue(entries, "root").None? ==> r.value.root == map[] && r.value.rootOrd == [])
              && (LastValue(entries, "root").Some? ==>
                    && LastValue(entries, "root").value.JObject?
                    && DecodeNode(LastValue(entries, "root").value) == Ok(Directory(r.value.root, r.value.rootOrd)))
              && (LastValue(entries, "prebuild").None? ==> r.value.prebuild == [])
              && (LastValue(entries, "prebuild").Some? ==> DecodeStrings(LastValue(entries, "prebuild").value) == Ok(r.value.prebuild))
              && (LastValue(entries, "postbuild").None? ==> r.value.postbuild == [])
              && (LastValue(entries, "postbuild").Some? ==> DecodeStrings(LastValue(entries, "postbuild").value) == Ok(r.value.postbuild))
  {
    SchemaOk(entries, 0, DefaultSchema);
    assert entries[0..] == entries;
    if DecodeSchema(JObject(entries)).Ok? {
      SchemaFrom(entries, 0, DefaultSchema);
      if LastValue(entries, "root").Some? {
        RootDecoding(LastValue(entries, "root").value);
      }
    }
  }

  lemma {:induction false} SchemaStopsAt(entries: seq<(string, Json)>, i: nat, k: nat, s: FSchema)
    requires i <= k < |entries|
    requires forall m :: i <= m < k ==> SchemaEntryOk(entries[m].0, entries[m].1)
    requires !SchemaEntryOk(entries[k].0, entries[k].1)
    ensures DecodeSchemaFrom(entries, i, s) == Err(DecodeSchemaEntry(DefaultSchema, entries[k].0, entries[k].1).error)
    decreases k - i
  {
    if i < k {
      SchemaStopsAt(entries, i + 1, k, DecodeSchemaEntry(s, entries[i].0, entries[i].1).value);
    }
  }

  /** The first unknown top-level key, after well-formed entries, is an `unknown_field` error. */
  lemma SchemaUnknownKey(entries: seq<(string, Json)>, k: nat)
    requires k < |entries|
    requires forall m :: 0 <= m < k ==> SchemaEntryOk(entries[m].0, entries[m].1)
    requires entries[k].0 !in SchemaFields
    ensures DecodeSchema(JObject(entries)) == Err(UnknownField(entries[k].0, ["root", "prebuild", "postbuild"]))
  {
    SchemaStopsAt(entries, 0, k, DefaultSchema);
  }

  // ---------------------------------------------------------------------------
  // Decoded trees satisfy the data model's invariant

  lemma {:induction false} DecodedNodeValid(j: Json)
    ensures DecodeNode(j).Ok? ==> NodeValid(DecodeNode(j).value)
    decreases j, 1
  {
    match j {
      case JObject(_) => DecodedEntriesValid(j, 0, map[], []);
      case JArray(items) =>
        var r := DecodeFile(items);
        if r.Ok? {
          var scanned := ScanFile(items, 0, None, None).value;
          ContentCheck(scanned.0.GetOr(DefaultOptions).ftype, scanned.1.value);
        }
      case _ =>
    }
  }

  lemma {:induction false} DecodedEntriesValid(j: Json, i: nat, contents: map<string, Node>, ord: seq<string>)
    requires j.JObject? && i <= |j.entries|
    requires forall key :: key in contents ==> NodeValid(contents[key])
    ensures DecodeEntries(j, i, contents, ord).Ok? ==> NodeValid(DecodeEntries(j, i, contents, ord).value)
    decreases j, 0, |j.entries| - i
  {
    if i < |j.entries| {
      var node := DecodeNode(j.entries[i].1);
      DecodedNodeValid(j.entries[i].1);
      if node.Ok? {
        DecodedEntriesValid(j, i + 1, contents[j.entries[i].0 := node.value], ord + [j.entries[i].0]);
      }
    }
  }

  lemma {:induction false} DecodedSchemaFromValid(entries: seq<(string, Json)>, i: nat, s: FSchema)
    requires i <= |entries| && SchemaValid(s)
    ensures DecodeSchemaFrom(entries, i, s).Ok? ==> SchemaValid(DecodeSchemaFrom(entries, i, s).value)
    decreases |entries| - i
  {
    if i < |entries| {
      var next := DecodeSchemaEntry(s, entries[i].0, entries[i].1);
      if next.Ok? {
        if entries[i].0 == "root" {
          var v := entries[i].1;
          DecodedEntriesValid(v, 0, map[], []);
          EntriesGiveDirectory(v, 0, map[], []);
        }
        DecodedSchemaFromValid(entries, i + 1, next.value);
      }
    }
  }

  /**
   * A decoded schema satisfies the invariant the materialiser relies on: every
   * Hex and Bits file carries data the byte conversion accepts.
   */
  lemma DecodedSchemaValid(j: Json)
    ensures DecodeSchema(j).Ok? ==> SchemaValid(DecodeSchema(j).value)
  {
    if j.JObject? {
      DecodedSchemaFromValid(j.entries, 0, DefaultSchema);
    }
  }
}
