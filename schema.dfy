/**
 * The schema data model: a tree of files, directories and comments, plus the
 * shell hooks run before and after the tree is built. The shapes follow the
 * decoder (Directory carries the key order it was read in, and the schema
 * carries the order of its root keys).
 */
module Schema {
  import opened Wrappers
  import opened Content

  newtype u32 = x: int | 0 <= x < 0x1_0000_0000
  newtype u64 = x: int | 0 <= x < 0x1_0000_0000_0000_0000

  /** How a file's data string becomes its on-disk content. */
  datatype FileType = Text | Copy | Piped | Link | Hex | Bits

  /** The variant names, as serde writes and reads them. */
  function FileTypeName(t: FileType): string {
    match t
    case Text => "Text"
    case Copy => "Copy"
    case Piped => "Piped"
    case Link => "Link"
    case Hex => "Hex"
    case Bits => "Bits"
  }

  /**
   * `mode`: permission bits (octal in the document), `defer`: the creation
   * level, `internal`: whether a Copy/Link path is relative to the output root.
   */
  datatype FileOptions = FileOptions(ftype: FileType, mode: Option<u32>, defer: u64, internal: bool)

  /** `FileOptions::default()`: Text, no mode, level 0, not internal. */
  const DefaultOptions: FileOptions := FileOptions(Text, None, 0, false)

  datatype Node =
    | File(data: string, options: FileOptions)
    | Directory(contents: map<string, Node>, ord: seq<string>)
    | Comment(text: string)

  datatype FSchema = FSchema(
    root: map<string, Node>,
    rootOrd: seq<string>,
    prebuild: seq<string>,
    postbuild: seq<string>)

  /** `FSchema::default()`: empty root, no hooks. */
  const DefaultSchema: FSchema := FSchema(map[], [], [], [])

  /** The root mapping seen as a directory without a path of its own. */
  function RootDirectory(schema: FSchema): (d: Node)
    ensures d.Directory? && d.contents == schema.root
  {
    Directory(schema.root, schema.rootOrd)
  }

  /** The data of a file is what its type's decode-time check accepts. */
  predicate DataValid(ftype: FileType, data: string) {
    (ftype == Hex ==> ValidHex(data)) && (ftype == Bits ==> ValidBits(data))
  }

  /** Every file in the tree carries data its type accepts. */
  predicate NodeValid(n: Node) {
    match n
    case File(data, options) => DataValid(options.ftype, data)
    case Directory(contents, _) => forall name :: name in contents ==> NodeValid(contents[name])
    case Comment(_) => true
  }

  predicate SchemaValid(schema: FSchema) {
    NodeValid(RootDirectory(schema))
  }
}
