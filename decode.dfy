/**
 * The schema decoder (fschema-lib/src/parse.rs): a JSON value becomes an
 * FSchema, the shape of each value deciding what it means. Each serde visitor
 * is a specification function over the value plus a method with the visitor's
 * loop, proved to compute that function.
 */
module Decode {
  import opened Wrappers
  import opened Json
  import opened Content
  import opened Schema

  datatype DecodeError =
    | InvalidType(expected: string)                   // a value of the wrong JSON shape
    | InvalidValue(expected: string)                  // a negative `defer` that fits an i64
    | UnknownVariant(variant: string)                 // an `ftype` that names no FileType
    | MalformedVariant                                // an `ftype` object without exactly one key
    | UnknownField(field: string, allowed: seq<string>)
    | ExpectedOctal                                   // "expected octal number"
    | HexLength                                       // odd length of hex data
    | HexDigits                                       // a non-hex character in hex data
    | BitsLength                                      // bits data not a multiple of 8 long
    | BitsDigits                                      // a character other than 0/1 in bits data
    | MissingData                                     // "Expected file data"
    | ExpectedRootObject                              // "Expected root object"

  type Decoded<T> = Result<T, DecodeError>

  /** The allowed list the options visitor names in its unknown-field error. */
  const OptionFieldsListed: seq<string> := ["ftype", "mode"]
  /** The keys the options visitor actually accepts. */
  const OptionFields: set<string> := {"ftype", "mode", "defer", "internal"}
  const SchemaFields: seq<string> := ["root", "prebuild", "postbuild"]

  // ---------------------------------------------------------------------------
  // Octal mode strings: u32::from_str_radix(s, 8)

  predicate IsOctalDigit(c: char) {
    '0' <= c <= '7'
  }

  predicate AllOctalDigits(s: string) {
    forall i :: 0 <= i < |s| ==> IsOctalDigit(s[i])
  }

  function OctalValue(s: string): nat
    requires AllOctalDigits(s)
  {
    if s == [] then 0 else 8 * OctalValue(s[..|s| - 1]) + (s[|s| - 1] - '0') as nat
  }

  /** The digits after an optional leading `+`. */
  function OctalDigits(s: string): string {
    if |s| > 0 && s[0] == '+' then s[1..] else s
  }

  /**
   * An optional `+`, then at least one octal digit, then nothing else; the
   * value must fit in 32 bits.
   */
  function ParseOctal(s: string): (r: Option<u32>)
    ensures r.Some? <==> |OctalDigits(s)| > 0 && AllOctalDigits(OctalDigits(s)) && OctalValue(OctalDigits(s)) < 0x1_0000_0000
    ensures r.Some? ==> r.value as int == OctalValue(OctalDigits(s))
  {
    var digits := OctalDigits(s);
    if |digits| == 0 || !AllOctalDigits(digits) then None
    else if OctalValue(digits) < 0x1_0000_0000 then Some(OctalValue(digits) as u32)
    else None
  }

  /** The shortest octal numeral of `v`. */
  function ToOctal(v: nat): (s: string)
    ensures |s| > 0 && AllOctalDigits(s) && s[0] != '+'
  {
    if v < 8 then [('0' as int + v) as char] else ToOctal(v / 8) + [('0' as int + v % 8) as char]
  }

  lemma {:induction false} ToOctalValue(v: nat)
    ensures OctalValue(ToOctal(v)) == v
  {
    if v >= 8 {
      ToOctalValue(v / 8);
      var s := ToOctal(v);
      assert s[..|s| - 1] == ToOctal(v / 8);
    }
  }

  /** Every 32-bit mode written as an octal numeral parses back to itself. */
  lemma OctalRoundTrip(m: u32)
    ensures ParseOctal(ToOctal(m as nat)) == Some(m)
  {
    ToOctalValue(m as nat);
  }

  lemma OctalExamples()
    ensures ParseOctal("755") == Some(493)
    ensures ParseOctal("+17") == Some(15)
    ensures ParseOctal("") == None && ParseOctal("+") == None
    ensures ParseOctal("8") == None && ParseOctal("-1") == None
  {
    assert OctalDigits("755") == "755";
    assert "755"[..2] == "75" && "75"[..1] == "7" && "7"[..0] == "";
    assert OctalDigits("+17") == "17";
    assert "17"[..1] == "1" && "1"[..0] == "";
    assert !IsOctalDigit("8"[0]) && !IsOctalDigit("-1"[0]);
  }

  /** Leading zeros are digits like any other. */
  lemma LeadingZeroExamples()
    ensures ParseOctal("0755") == Some(493) && ParseOctal("+0") == Some(0)
  {
    assert OctalDigits("0755") == "0755" && "0755"[..3] == "075" && "075"[..2] == "07" && "07"[..1] == "0";
    assert OctalDigits("+0") == "0" && "0"[..0] == "";
  }

  // ---------------------------------------------------------------------------
  // File options (FileOptionsVisitor)

  /** The variant a name denotes. */
  function VariantNamed(s: string): (r: Decoded<FileType>)
    ensures forall t :: r == Ok(t) <==> s == FileTypeName(t)
    ensures r.Err? ==> r == Err(UnknownVariant(s))
  {
    if s == "Text" then Ok(Text)
    else if s == "Copy" then Ok(Copy)
    else if s == "Piped" then Ok(Piped)
    else if s == "Link" then Ok(Link)
    else if s == "Hex" then Ok(Hex)
    else if s == "Bits" then Ok(Bits)
    else Err(UnknownVariant(s))
  }

  /**
   * `ftype` is a unit variant, read as serde_json reads one: its name as a
   * string, or an object with the name as its one key and null as its value.
   */
  function DecodeFileType(j: Json): (r: Decoded<FileType>)
    ensures forall t :: r == Ok(t) <==> j == JString(FileTypeName(t)) || j == JObject([(FileTypeName(t), JNull)])
  {
    match j
    case JString(s) => VariantNamed(s)
    case JObject(entries) =>
      if |entries| == 0 then Err(MalformedVariant)
      else
        var t :- VariantNamed(entries[0].0);
        if entries[0].1 != JNull then Err(InvalidType("unit variant"))
        else if |entries| > 1 then Err(MalformedVariant)
        else assert entries == [entries[0]]; Ok(t)
    case _ => Err(InvalidType("variant identifier"))
  }

  lemma FileTypeExamples()
    ensures DecodeFileType(JString("Hex")) == Ok(Hex)
    ensures DecodeFileType(JObject([("Hex", JNull)])) == Ok(Hex)
    ensures DecodeFileType(JString("hex")) == Err(UnknownVariant("hex"))
    ensures DecodeFileType(JObject([("Hex", JBool(true))])) == Err(InvalidType("unit variant"))
    ensures DecodeFileType(JObject([("Hex", JNull), ("Bits", JNull)])) == Err(MalformedVariant)
    ensures DecodeFileType(JNumber(4)) == Err(InvalidType("variant identifier"))
  {
  }

  /** `mode` must be a string holding an octal number. */
  function DecodeMode(j: Json): Decoded<u32> {
    match j
    case JString(s) => if ParseOctal(s).Some? then Ok(ParseOctal(s).value) else Err(ExpectedOctal)
    case _ => Err(InvalidType("a string"))
  }

  /**
   * `defer` is a u64. serde_json reads an integer that fits neither a u64 nor
   * an i64 as a float, which is a type error; a negative i64 is a value error.
   */
  function DecodeDefer(j: Json): (r: Decoded<u64>)
    ensures r.Ok? <==> j.JNumber? && 0 <= j.num < 0x1_0000_0000_0000_0000
    ensures r.Ok? ==> r.value as int == j.num
    ensures r == Err(InvalidValue("u64")) <==> j.JNumber? && -0x8000_0000_0000_0000 <= j.num < 0
  {
    match j
    case JNumber(n) =>
      if n < -0x8000_0000_0000_0000 then Err(InvalidType("u64"))
      else if n < 0 then Err(InvalidValue("u64"))
      else if n < 0x1_0000_0000_0000_0000 then Ok(n as u64)
      else Err(InvalidType("u64"))
    case _ => Err(InvalidType("u64"))
  }

  lemma DeferExamples()
    ensures DecodeDefer(JNumber(3)) == Ok(3)
    ensures DecodeDefer(JNumber(-1)) == Err(InvalidValue("u64"))
    ensures DecodeDefer(JNumber(-0x8000_0000_0000_0001)) == Err(InvalidType("u64"))
    ensures DecodeDefer(JNumber(0x1_0000_0000_0000_0000)) == Err(InvalidType("u64"))
    ensures DecodeDefer(JString("3")) == Err(InvalidType("u64"))
  {
  }

  function DecodeInternal(j: Json): Decoded<bool> {
    match j
    case JBool(b) => Ok(b)
    case _ => Err(InvalidType("a boolean"))
  }

  /** One key of an options object overwrites one field. */
  function DecodeOptionEntry(options: FileOptions, key: string, value: Json): Decoded<FileOptions> {
    if key == "ftype" then
      var t :- DecodeFileType(value); Ok(options.(ftype := t))
    else if key == "mode" then
      var m :- DecodeMode(value); Ok(options.(mode := Some(m)))
    else if key == "defer" then
      var d :- DecodeDefer(value); Ok(options.(defer := d))
    else if key == "internal" then
      var b :- DecodeInternal(value); Ok(options.(internal := b))
    else Err(UnknownField(key, OptionFieldsListed))
  }

  function DecodeOptionsFrom(entries: seq<(string, Json)>, i: nat, options: FileOptions): Decoded<FileOptions>
    requires i <= |entries|
    decreases |entries| - i
  {
    if i == |entries| then Ok(options)
    else
      var next :- DecodeOptionEntry(options, entries[i].0, entries[i].1);
      DecodeOptionsFrom(entries, i + 1, next)
  }

  /** An options object, read from the defaults. */
  function DecodeOptions(entries: seq<(string, Json)>): Decoded<FileOptions> {
    DecodeOptionsFrom(entries, 0, DefaultOptions)
  }

  method VisitOptions(entries: seq<(string, Json)>) returns (r: Decoded<FileOptions>)
    ensures r == DecodeOptions(entries)
  {
    var options := DefaultOptions;
    var i := 0;
    while i < |entries|
      invariant i <= |entries|
      invariant DecodeOptionsFrom(entries, i, options) == DecodeOptions(entries)
    {
      var (key, value) := entries[i];
      var next := DecodeOptionEntry(options, key, value);
      if next.Err? {
        return Err(next.error);
      }
      options := next.value;
      i := i + 1;
    }
    return Ok(options);
  }

  // ---------------------------------------------------------------------------
  // File nodes (InnerFileNodeVisitor and NodeVisitor::visit_seq)

  datatype InnerFileNode = InnerOptions(options: FileOptions) | InnerData(data: string)

  /** An element of a file sequence: an options object or a data string. */
  function DecodeInner(j: Json): Decoded<InnerFileNode> {
    match j
    case JObject(entries) => var o :- DecodeOptions(entries); Ok(InnerOptions(o))
    case JString(s) => Ok(InnerData(s))
    case _ => Err(InvalidType("either file options or file data"))
  }

  /** The scan of a file sequence: the first options and the first data win. */
  function ScanFile(items: seq<Json>, i: nat, options: Option<FileOptions>, data: Option<string>)
    : Decoded<(Option<FileOptions>, Option<string>)>
    requires i <= |items|
    decreases |items| - i
  {
    if i == |items| then Ok((options, data))
    else
      var inner :- DecodeInner(items[i]);
      match inner
      case InnerOptions(o) => ScanFile(items, i + 1, if options.None? then Some(o) else options, data)
      case InnerData(d) => ScanFile(items, i + 1, options, if data.None? then Some(d) else data)
  }

  /** The decode-time content check; the length is checked before the characters. */
  function CheckContent(ftype: FileType, data: string): Option<DecodeError> {
    if ftype == Hex then
      if |data| % 2 != 0 then Some(HexLength)
      else if !AllHexDigits(data) then Some(HexDigits)
      else None
    else if ftype == Bits then
      if |data| % 8 != 0 then Some(BitsLength)
      else if !AllBitDigits(data) then Some(BitsDigits)
      else None
    else None
  }

  /** After the scan: default options, data required, content checked. */
  function BuildFile(options: Option<FileOptions>, data: Option<string>): Decoded<Node> {
    var o := options.GetOr(DefaultOptions);
    if data.None? then Err(MissingData)
    else
      var problem := CheckContent(o.ftype, data.value);
      if problem.Some? then Err(problem.value) else Ok(File(data.value, o))
  }

  function DecodeFile(items: seq<Json>): Decoded<Node> {
    var scanned :- ScanFile(items, 0, None, None);
    BuildFile(scanned.0, scanned.1)
  }

  method VisitFile(items: seq<Json>) returns (r: Decoded<Node>)
    ensures r == DecodeFile(items)
  {
    var options: Option<FileOptions> := None;
    var data: Option<string> := None;
    var i := 0;
    while i < |items|
      invariant i <= |items|
      invariant ScanFile(items, i, options, data) == ScanFile(items, 0, None, None)
    {
      var inner: Decoded<InnerFileNode>;
      match items[i] {
        case JObject(entries) =>
          var o := VisitOptions(entries);
          inner := if o.Ok? then Ok(InnerOptions(o.value)) else Err(o.error);
        case JString(s) =>
          inner := Ok(InnerData(s));
        case _ =>
          inner := Err(InvalidType("either file options or file data"));
      }
      if inner.Err? {
        return Err(inner.error);
      }
      match inner.value {
        case InnerOptions(found) =>
          if options.None? {
            options := Some(found);
          }
        case InnerData(found) =>
          if data.None? {
            data := Some(found);
          }
      }
      i := i + 1;
    }
    var o := options.GetOr(DefaultOptions);
    if data.None? {
      return Err(MissingData);
    }
    var d := data.value;
    if o.ftype == Hex {
      if |d| % 2 != 0 {
        return Err(HexLength);
      }
      if !AllHexDigits(d) {
        return Err(HexDigits);
      }
    } else if o.ftype == Bits {
      if |d| % 8 != 0 {
        return Err(BitsLength);
      }
      if !AllBitDigits(d) {
        return Err(BitsDigits);
      }
    }
    return Ok(File(d, o));
  }

  // ---------------------------------------------------------------------------
  // Nodes (NodeVisitor): the shape decides the meaning

  function DecodeNode(j: Json): Decoded<Node>
    decreases j, 1
  {
    match j
    case JObject(_) => DecodeEntries(j, 0, map[], [])
    case JArray(items) => DecodeFile(items)
    case JString(s) => Ok(Comment(s))
    case _ => Err(InvalidType("a file or directory"))
  }

  /**
   * The directory visitor from entry `i` on: each value is decoded as a node,
   * inserted under its key (a later entry replaces an earlier one) and its
   * key appended to `ord`.
   */
  function DecodeEntries(j: Json, i: nat, contents: map<string, Node>, ord: seq<string>): Decoded<Node>
    requires j.JObject? && i <= |j.entries|
    decreases j, 0, |j.entries| - i
  {
    if i == |j.entries| then Ok(Directory(contents, ord))
    else
      var node :- DecodeNode(j.entries[i].1);
      DecodeEntries(j, i + 1, contents[j.entries[i].0 := node], ord + [j.entries[i].0])
  }

  method VisitNode(j: Json) returns (r: Decoded<Node>)
    ensures r == DecodeNode(j)
    decreases j, 1
  {
    match j {
      case JObject(_) => r := VisitDirectory(j);
      case JArray(items) => r := VisitFile(items);
      case JString(s) => r := Ok(Comment(s));
      case _ => r := Err(InvalidType("a file or directory"));
    }
  }

  method VisitDirectory(j: Json) returns (r: Decoded<Node>)
    requires j.JObject?
    ensures r == DecodeEntries(j, 0, map[], [])
    decreases j, 0
  {
    var contents: map<string, Node> := map[];
    var ord: seq<string> := [];
    var i := 0;
    while i < |j.entries|
      invariant i <= |j.entries|
      invariant DecodeEntries(j, i, contents, ord) == DecodeEntries(j, 0, map[], [])
    {
      var (key, value) := j.entries[i];
      var node := VisitNode(value);
      if node.Err? {
        return Err(node.error);
      }
      contents := contents[key := node.value];
      ord := ord + [key];
      i := i + 1;
    }
    return Ok(Directory(contents, ord));
  }

  // ---------------------------------------------------------------------------
  // The top level (FSchemaVisitor and Root)

  /** A `Vec<String>`: an array of strings. */
  function DecodeStrings(j: Json): Decoded<seq<string>> {
    match j
    case JArray(items) => DecodeStringItems(items)
    case _ => Err(InvalidType("a sequence"))
  }

  function DecodeStringItems(items: seq<Json>): (r: Decoded<seq<string>>)
    ensures r.Ok? ==> |r.value| == |items| && forall i :: 0 <= i < |items| ==> items[i] == JString(r.value[i])
  {
    if items == [] then Ok([])
    else if !items[0].JString? then Err(InvalidType("a string"))
    else var rest :- DecodeStringItems(items[1..]); Ok([items[0].str] + rest)
  }

  /** `root` is read with the node visitor as a map and must be a directory. */
  function DecodeRoot(j: Json): Decoded<(map<string, Node>, seq<string>)> {
    match j
    case JObject(_) =>
      var node :- DecodeEntries(j, 0, map[], []);
      if node.Directory? then Ok((node.contents, node.ord)) else Err(ExpectedRootObject)
    case _ => Err(InvalidType("a file or directory"))
  }

  function DecodeSchemaEntry(schema: FSchema, key: string, value: Json): Decoded<FSchema> {
    if key == "root" then
      var root :- DecodeRoot(value); Ok(schema.(root := root.0, rootOrd := root.1))
    else if key == "prebuild" then
      var commands :- DecodeStrings(value); Ok(schema.(prebuild := commands))
    else if key == "postbuild" then
      var commands :- DecodeStrings(value); Ok(schema.(postbuild := commands))
    else Err(UnknownField(key, SchemaFields))
  }

  function DecodeSchemaFrom(entries: seq<(string, Json)>, i: nat, schema: FSchema): Decoded<FSchema>
    requires i <= |entries|
    decreases |entries| - i
  {
    if i == |entries| then Ok(schema)
    else
      var next :- DecodeSchemaEntry(schema, entries[i].0, entries[i].1);
      DecodeSchemaFrom(entries, i + 1, next)
  }

  /** The document must be an object; it is read from the default schema. */
  function DecodeSchema(j: Json): Decoded<FSchema> {
    match j
    case JObject(entries) => DecodeSchemaFrom(entries, 0, DefaultSchema)
    case _ => Err(InvalidType("a fschema"))
  }

  method VisitSchema(j: Json) returns (r: Decoded<FSchema>)
    ensures r == DecodeSchema(j)
  {
    if !j.JObject? {
      return Err(InvalidType("a fschema"));
    }
    var schema := DefaultSchema;
    var i := 0;
    while i < |j.entries|
      invariant i <= |j.entries|
      invariant DecodeSchemaFrom(j.entries, i, schema) == DecodeSchema(j)
    {
      var (key, value) := j.entries[i];
      if key == "root" {
        if !value.JObject? {
          return Err(InvalidType("a file or directory"));
        }
        var node := VisitDirectory(value);
        if node.Err? {
          return Err(node.error);
        }
        if !node.value.Directory? {
          return Err(ExpectedRootObject);
        }
        schema := schema.(root := node.value.contents, rootOrd := node.value.ord);
      } else if key == "prebuild" || key == "postbuild" {
        var commands := DecodeStrings(value);
        if commands.Err? {
          return Err(commands.error);
        }
        schema := if key == "prebuild" then schema.(prebuild := commands.value)
                  else schema.(postbuild := commands.value);
      } else {
        return Err(UnknownField(key, SchemaFields));
      }
      i := i + 1;
    }
    return Ok(schema);
  }
}
