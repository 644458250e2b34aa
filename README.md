# fschema in Dafny

A model of the core of `fschema`, a library that builds a tree of
directories and files on disk from a JSON description (a "schema"), and
proofs about that model. The model covers two parts.

**The schema decoder and encoder** (`fschema-lib/src/parse.rs`).
- A JSON document is taken as an already-parsed value (`Json.Json`). An object
  keeps its entries as a sequence, so repeated keys and their order stay
  visible, as they are to a serde map visitor.
- Each serde visitor is a specification function (`Decode.DecodeNode`,
  `Decode.DecodeOptions`, `Decode.DecodeSchema`, ...). Beside it is a method
  with the visitor's own loop, proved to compute that function
  (`Decode.VisitNode`, `Decode.VisitOptions`, `Decode.VisitSchema`, ...).
- The shape of a value decides what it means: a map is a directory, a
  sequence a file, a string a comment. A file sequence keeps its first
  options object and its first string. Hex and bits data are checked at
  decode time.
- The `Serialize` impls are pure encode functions (`Encode.*`). A directory is
  written in the iteration order of its own hash map. The encoder takes that
  order as a parameter, one listing of the keys for each directory, named by
  the keys leading to it from the root. The laws hold for every such choice.

**The materialiser** (`FSchema::create` in `fschema-lib/src/lib.rs`).
- The filesystem and the shell are oracles in an `Effects.World`. An oracle
  is asked about each operation, given every operation attempted before it.
- A build is described by the list of operations it attempts and the error,
  if any, that stopped it (`Effects.Outcome`).
- `Materialize.Create` keeps the source's three work lists: `stack`,
  `backstack` and `defered`. It also keeps the deferral level, and its loops
  pop, push and swap as the source does.
- A ghost list `visited` records the items processed. The proofs relate it to
  the schema's tree, counted as a multiset of (inner path, node, depth) items; the depth is ghost, as the source does not record it.
- The hex and bits byte conversions (`Content.*`) and `resolve_data_path`
  (`Effects.ResolveDataPath`) are pure functions.

The two source files were written against different versions of the data
model. `parse.rs` has `Node::Directory { contents, ord }`, `Node::Comment` and
`FSchema.root_ord`. `lib.rs` has a plain `Directory(HashMap)` and no comments.
The model follows `parse.rs`. In `create`, which has no arm for a comment,
a comment has no effect.

In three places the code does something other than what its own
declarations and neighbouring code suggest; the model follows the code:
- `mode` is documented as the file's permissions
  (`fschema-lib/src/lib.rs:83`), but `set_mode` (`lib.rs:169`) is applied to
  the copy that `permissions()` returns, which is never written back, so a
  mode never changes permissions;
- the encoder writes `mode` as a number (`fschema-lib/src/parse.rs:87`),
  while the decoder reads it only as a string (`parse.rs:118`), so a mode does
  not read back (see Findings);
- every IO error on a file carries the inner path (`lib.rs:134-168`),
  except that a Piped file's command errors carry only the command
  (`lib.rs:145`, `lib.rs:225-238`); a failed directory creation carries the
  full path joined to the root (`lib.rs:173`).

## Model

| member | source | states |
|---|---|---|
| `Content.HexBytes` | fschema-lib/src/lib.rs:146-153 | Hex data of `n` characters is written as `n/2` bytes |
| `Content.HexBytesAt` | fschema-lib/src/lib.rs:147-151 | byte `k` is the two-character chunk `2k`, `2k+1` read in base 16, high nibble first |
| `Content.HexRoundTrip` | fschema-lib/src/lib.rs:146-153 | every byte sequence is what some valid hex data writes: the conversion inverts `ToHex` |
| `Content.HexExample` | fschema-lib/src/parse.rs:325 | the test's data "00aF" passes the hex check and writes the bytes 0x00, 0xAF |
| `Content.BitsBytes` | fschema-lib/src/lib.rs:154-159 | Bits data of `n` characters is written as `n/8` bytes, byte `k` the chunk `8k..8k+8` read in base 2 |
| `Content.BitStringValue` | fschema-lib/src/lib.rs:157 | reading the `n` low bits of `v` in base 2, most significant first, gives `v` back |
| `Content.BitsRoundTrip` | fschema-lib/src/lib.rs:154-159 | every byte sequence is what some valid bits data writes: the conversion inverts `ToBits` |
| `Content.BitsExample` | fschema-lib/src/lib.rs:154-159 | "01100001" passes the bits check and writes the single byte 0x61 |
| `Decode.ParseOctal` | fschema-lib/src/parse.rs:118 | a mode string parses exactly when it is an optional `+` and a non-empty run of octal digits whose value is below 2^32, and then to that value in base 8 |
| `Decode.OctalRoundTrip` | fschema-lib/src/parse.rs:118 | every 32-bit mode written in octal parses back to itself |
| `Decode.OctalExamples` | fschema-lib/src/parse.rs:118 | "755" is 493 and "+17" is 15; "", "+", "8" and "-1" are refused |
| `Decode.LeadingZeroExamples` | fschema-lib/src/parse.rs:118 | "0755" is 493 and "+0" is 0: a leading zero is an ordinary digit |
| `Decode.VariantNamed` | fschema-lib/src/lib.rs:56-70 | a name denotes a type exactly when it is that variant's name; any other name is an unknown variant |
| `Decode.DecodeDefer` | fschema-lib/src/parse.rs:119 | `defer` decodes exactly from an integer in [0, 2^64), to that integer; a value error exactly for a negative integer that fits an i64; any other value is a type error |
| `Decode.DeferExamples` | fschema-lib/src/parse.rs:119 | 3 decodes; -1 is a value error; -2^63-1, 2^64 and a string are type errors |
| `Decode.DecodeFileType` | fschema-lib/src/parse.rs:117 | an `ftype` decodes to a type exactly when it is the variant's name as a string, or a one-entry map from that name to null |
| `Decode.FileTypeExamples` | fschema-lib/src/parse.rs:117 | "Hex" and {"Hex": null} are Hex; "hex" is an unknown variant; {"Hex": true}, a two-entry map and a number are refused |
| `Decode.VisitOptions` | fschema-lib/src/parse.rs:114-124 | the options loop, starting from the defaults, computes `DecodeOptions` |
| `Decode.VisitFile` | fschema-lib/src/parse.rs:221-274 | the file-sequence loop and the checks after it compute `DecodeFile` |
| `Decode.VisitNode` | fschema-lib/src/parse.rs:152-158 | dispatching on the value's shape computes `DecodeNode` |
| `Decode.VisitDirectory` | fschema-lib/src/parse.rs:276-288 | the directory loop, inserting into `contents` and pushing to `ord`, computes the directory decoding |
| `Decode.VisitSchema` | fschema-lib/src/parse.rs:40-58 | the top-level loop, from the default schema, computes `DecodeSchema` |
| `Decode.DecodeStringItems` | fschema-lib/src/parse.rs:52-53 | a decoded hook list has one command per element, each element being that command's string |
| `DecodeLaws.NodeShape` | fschema-lib/src/parse.rs:214-310 | a string is a comment; a number, boolean or null is an error; on success a directory comes from a map, a file from a sequence, a comment from a string, each both ways |
| `DecodeLaws.DirectoryDecoding` | fschema-lib/src/parse.rs:280-287 | a map decodes iff each of its values does; `ord` is every key in document order, repeats included; `contents` has exactly the keys present, each holding the decoding of its last value |
| `DecodeLaws.FileFirstWins` | fschema-lib/src/parse.rs:226-273 | for well-formed elements, the file is built from the first options object (or the defaults) and the first string; with no string it is "Expected file data"; valid data gives that file |
| `DecodeLaws.FileRejectsBadElement` | fschema-lib/src/parse.rs:174-210 | the first element that is neither a string nor a well-formed options object fails the file with that element's own error; a non-object element is "either file options or file data" |
| `DecodeLaws.ContentCheck` | fschema-lib/src/parse.rs:245-268 | the content check passes iff Hex data has even length and only hex digits and Bits data a length divisible by 8 and only 0/1; other types are not checked; the length error comes before the digit error |
| `DecodeLaws.FileContentExamples` | fschema-lib/src/parse.rs:246-260 | "00aF" as Hex decodes; "0g" and "abc" give the Hex digit and length errors |
| `DecodeLaws.FileBitsExamples` | fschema-lib/src/parse.rs:261-268 | "0110000" and "0110000x" give the Bits length and digit errors |
| `DecodeLaws.FileDefaultExamples` | fschema-lib/src/parse.rs:243-273 | an empty options object gives the default options; a sequence without a string is "Expected file data" |
| `DecodeLaws.OptionEntryEffect` | fschema-lib/src/parse.rs:116-121 | an accepted option entry sets the one field its key names and leaves the others unchanged |
| `DecodeLaws.OptionsDecoding` | fschema-lib/src/parse.rs:114-124 | an options map decodes iff every entry is `ftype`, `mode`, `defer` or `internal` with a value of its type; each field then holds its key's last value, or its default when the key is absent |
| `DecodeLaws.OptionsFirstError` | fschema-lib/src/parse.rs:115-122 | the first bad entry decides the error: an unknown key is `unknown_field` listing only ftype and mode; a `mode` string that is not octal is "expected octal number"; a non-string `mode` is an invalid type |
| `DecodeLaws.RootDecoding` | fschema-lib/src/parse.rs:63-73 | `root` decodes iff it is a map that decodes as a node, and it is then that directory |
| `DecodeLaws.SchemaDecoding` | fschema-lib/src/parse.rs:44-57 | a document decodes iff every key is root, prebuild or postbuild with a value of its type; an absent key leaves the empty root or an empty hook list; a repeated key keeps its last value |
| `DecodeLaws.SchemaUnknownKey` | fschema-lib/src/parse.rs:54 | the first unknown top-level key, after well-formed entries, is `unknown_field` listing root, prebuild and postbuild |
| `DecodeLaws.DecodedSchemaValid` | fschema-lib/src/parse.rs:245-268 | every decoded schema carries Hex and Bits data the byte conversions accept, so the `unwrap`s in `create` cannot fail |
| `Encode.EncodeOptions` | fschema-lib/src/parse.rs:77-91 | options are written as `ftype`, `defer`, `internal`, then `mode` only when it is set |
| `Encode.EncodeNode` | fschema-lib/src/parse.rs:128-150 | a file is written as a sequence, a directory as a map whose keys are its contents in that directory's own iteration order, a comment as a string, each both ways |
| `Encode.EncodeSchema` | fschema-lib/src/parse.rs:7-19 | a schema is written as a map with the keys root, prebuild and postbuild, in that order |
| `Encode.OptionsRoundTrip` | fschema-lib/src/parse.rs:77-124 | options without a mode, or with a mode written as octal text, decode back to themselves |
| `Encode.ModeBreaksRoundTrip` | fschema-lib/src/parse.rs:86-88 | as written, options with a mode encode to a map the decoder rejects: `mode` must be a string |
| `Encode.ModeCounterexample` | fschema-lib/src/parse.rs:86-88 | an empty Text file with mode 0o755, encoded as written, does not decode again |
| `Encode.RoundTrip` | fschema-lib/src/parse.rs:128-150 | with `mode` written as octal text, decoding an encoded valid node gives it back, each directory's `ord` replaced by that directory's iteration order |
| `Encode.RoundTripAsWritten` | fschema-lib/src/parse.rs:128-150 | as written, the same round trip holds for every valid node in which no file has a mode |
| `Encode.StringsRoundTrip` | fschema-lib/src/parse.rs:15-16 | a hook list decodes back to itself |
| `Encode.SchemaRoundTrip` | fschema-lib/src/parse.rs:7-19 | a valid schema round-trips: the hooks exactly, the root and each directory with `ord` replaced by its own iteration order |
| `Effects.ResolveDataPath` | fschema-lib/src/lib.rs:199-205 | an internal path is the output root, a slash and the data; otherwise it is the data itself |
| `Effects.ResolveExamples` | fschema-lib/src/lib.rs:199-205 | "src.txt" under root "R" resolves to "R/src.txt" when internal, "src.txt" when not |
| `Effects.StatusError` | fschema-lib/src/lib.rs:208-222 | a command succeeds iff it exits 0 or is killed by a signal; a spawn failure is an IO error and a non-zero code a command error carrying that code |
| `Effects.Hooks` | fschema-lib/src/lib.rs:108-110 | a hook list runs its commands in order, stopping at the first failure; on success every command has run |
| `Effects.HooksRunInOrder` | fschema-lib/src/lib.rs:108-110 | every command run before the last succeeded, each seeing the runs before it; a reported error is the last command's |
| `Effects.HooksOnlyRun` | fschema-lib/src/lib.rs:191-193 | hooks only run commands: they touch no file themselves |
| `Effects.HooksStopped` | fschema-lib/src/lib.rs:108-110 | once a prefix of the list has failed, the later commands are never run |
| `Effects.RunHooks` | fschema-lib/src/lib.rs:191-193 | the hook loop computes `Hooks` |
| `Effects.AcceptedEach` | fschema-lib/src/lib.rs:132-178 | a list of operations is accepted exactly when each one is let through by the world after the ones before it: a command when it ends well, any other operation when it succeeds |
| `Effects.WriteContent` | fschema-lib/src/lib.rs:132-160 | each file type issues its one write (Piped: first its command, then the write of its output); Copy and Link use the resolved data path, Hex and Bits the converted bytes; a write error names the inner path, data and type |
| `Effects.WriteContentAccepted` | fschema-lib/src/lib.rs:132-160 | writing a file's content fails exactly when the world refuses one of its operations (a Piped file's command, the write), and then at the last one |
| `Effects.ApplyMode` | fschema-lib/src/lib.rs:162-170 | with a mode, the file is opened read-write and its metadata read; an error is an IO error naming the file; permissions are never changed |
| `Effects.ApplyModeAccepted` | fschema-lib/src/lib.rs:162-170 | a mode fails exactly when the world refuses the read-write opening or the metadata read, and then at that operation |
| `Effects.ProcessItem` | fschema-lib/src/lib.rs:125-181 | a directory is created with its ancestors, a comment does nothing, a file is written at its path; an error names the item: a file's inner path, data and type, a Piped file's own command, or a directory's full path; no permission change and no hook run |
| `Effects.ProcessItemAccepted` | fschema-lib/src/lib.rs:125-181 | processing an item fails exactly when the world refuses one of its operations (the directory creation, a file's write, command, open or metadata read), and only at the last |
| `Effects.RefusedCreateExample` | fschema-lib/src/lib.rs:133-134 | an empty Text file whose creation the world refuses fails with an IO error naming the file |
| `Effects.RefusedOpenExample` | fschema-lib/src/lib.rs:162-170 | a file with a mode, written but refused the read-write opening, fails there with an IO error naming the file |
| `Effects.Replay` | fschema-lib/src/lib.rs:122-181 | processing items in order, until the first error: an error names one of the items as `ProcessItem` does, and no operation changes permissions or runs a hook |
| `Effects.ReplayAccepted` | fschema-lib/src/lib.rs:122-181 | the items replayed report no error exactly when the world let every one of their operations through; on an error, every operation before the last one was let through: the walk stops at the first refusal |
| `Materialize.ForestRemove` | fschema-lib/src/lib.rs:175-179 | the items below a directory are the same whichever entry its iteration takes first |
| `Materialize.PushEntries` | fschema-lib/src/lib.rs:175-179 | appending a directory's entries keeps the list in front and adds exactly the entries, each at its parent's path, a slash and its name |
| `Materialize.WalkOrder` | fschema-lib/src/lib.rs:121-189 | every processed item is a root entry or the child of a directory processed before it; files go in non-decreasing `defer` order; no directory comes after a file with positive `defer`; the items processed at level 0 (directories, comments, files with `defer` 0) come breadth first, in non-decreasing depth |
| `Materialize.Pop` | fschema-lib/src/lib.rs:122-181 | one pop: a file above the level is appended to the held files and nothing is processed; anything else is appended to the processed items, the held files unchanged, and a directory's entries queued; the walk's invariant, depth of the pass included, is kept; an error stops at that item |
| `Materialize.Visit` | fschema-lib/src/lib.rs:125-180 | processing the popped item extends the replayed walk by exactly that item; a directory's entries join the next-depth list one level deeper; an error names the item |
| `Materialize.Pass` | fschema-lib/src/lib.rs:122-182 | a depth pass empties the current list or stops at the first failing item, keeping the walk's invariant; at level 0 it takes the items of one depth and queues those of the next |
| `Materialize.Round` | fschema-lib/src/lib.rs:121-188 | one round of the outer loop processes an item or raises the level by exactly one; the level stays only while the next-depth list has items to become the current one, and when it rises the held files become the current list and nothing is held |
| `Materialize.Walk` | fschema-lib/src/lib.rs:112-189 | the walk terminates; it processes parents before children, files in `defer` order, directories before deferred files and the items of level 0 breadth first; on success every item of the tree exactly once; on failure it stops at the item the error names |
| `Materialize.Create` | fschema-lib/src/lib.rs:106-195 | a failed prebuild stops before any filesystem operation; a failed walk skips the rest and postbuild; otherwise every directory and file is processed once, in the walk's order, and postbuild runs after the walk |
| `Materialize.NoPermissionChange` | fschema-lib/src/lib.rs:162-170 | no build, for any schema and any world, attempts a permission change |
| `Materialize.CreateOneFile` | fschema-lib/src/lib.rs:133-134 | one empty Text file `f` built under `R` in a world where every operation succeeds: the only operation is creating `R/f` empty, and the build succeeds |

## Left out

- Real I/O: the filesystem and the shell are oracles (`Effects.World`). `fs::copy` contents, symlink resolution and `create_dir_all` ancestor handling are left to the oracle.
- `PathBuf::join` replacing the base when the joined path is absolute: `Effects.Join` always inserts a slash.
- `resolve_data_path`'s `Error::Path` arm: converting a string to a path cannot fail (`Infallible`), so the error is not modelled.
- `String::from_utf8_lossy` on piped output: the oracle returns the text directly.
- Hash-map iteration order: the materialiser picks each directory's entries with `:|`, and the encoder takes an order for each directory as a parameter, so every proof holds for every choice of order, directory by directory.
- The byte length of non-ASCII data: the hex and bits length checks count characters, which equals bytes for ASCII data only.
- JSON text, serde machinery, `from_reader`/`from_str` and the `Display` text of errors: decoding starts from a parsed value, and errors keep their kind and what they carry. JSON numbers are integers.
- `fschema/src/main.rs`: argument parsing, path checks and exit codes are not part of this model.
- `Decode.DecodeFileType`: the map form `{name: null}` is decoded, but serde's distinct messages for an empty map, a map with several entries and a non-null value are approximated by two error kinds (`MalformedVariant`, and an invalid type "unit variant"). An `ftype` that is neither a string nor a map is given an invalid-type error here, where serde_json reports it as a syntax error ("expected value").
- `Decode.ExpectedRootObject`: decoding a map with the node visitor always gives a directory, so the "Expected root object" branch is kept but cannot be reached.
- `Materialize.Walk`: the level counter is unbounded. The source's `u64` counter is raised once more after the last pass. When some file has `defer` equal to 2^64-1, that raise overflows: a panic in debug builds, a wrap to 0 in release builds, where the loop ends anyway. The model does not capture the debug-build panic.
- `Materialize.Create`: the statement that a failed prebuild writes nothing is stated as the log holding only the hook runs. The disk state is not modelled.

## Findings

| source | as written | input that shows it | evidently intended | confidence | as-written member | corrected member |
|---|---|---|---|---|---|---|
| fschema-lib/src/parse.rs:86-88 | `mode` is serialised as a `u32` number, while the decoder (parse.rs:118) reads `mode` only as a string of octal digits | an empty Text file with mode 0o755: its encoding re-decodes to an invalid-type error (a string was expected) | `mode` is written as the octal string the decoder reads, so that every valid schema round-trips | high, not executed | `Encode.ModeCounterexample` | `Encode.RoundTrip` |
