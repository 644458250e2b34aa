/**
 * The effects of building a schema, seen from outside: the filesystem and
 * the shell are oracles in a `World`, and each step of the build is the list
 * of operations it attempts together with the error, if any, that stopped it.
 * An oracle sees every operation attempted before the one it answers, so it
 * can model a filesystem whose state those operations changed.
 */
module Effects {
  import opened Wrappers
  import opened Content
  import opened Schema

  type Path = string

  /** `root.join(rel)`, for a relative `rel`. */
  function Join(base: Path, rel: string): Path {
    base + "/" + rel
  }

  /**
   * Where a Copy reads from and a Link points to: the data under the output
   * root when the file is internal, the data itself otherwise.
   */
  function ResolveDataPath(data: string, internal: bool, root: Path): (p: Path)
    ensures internal ==> |p| == |root| + 1 + |data| && p[..|root|] == root && p[|root|] == '/' && p[|root| + 1..] == data
    ensures !internal ==> p == data
  {
    if internal then Join(root, data) else data
  }

  lemma ResolveExamples()
    ensures ResolveDataPath("src.txt", true, "R") == "R/src.txt"
    ensures ResolveDataPath("src.txt", false, "R") == "src.txt"
  {
  }

  datatype FileContent = TextContent(text: string) | ByteContent(bytes: seq<byte>)

  /** The operations a build attempts, in the order it attempts them. */
  datatype Op =
    | Run(command: string)                      // a hook, run to completion in bash
    | Pipe(command: string)                     // a Piped file's command, output captured
    | CreateEmpty(path: Path)                   // create or truncate an empty file
    | Write(path: Path, content: FileContent)   // write a whole file
    | CopyFile(source: Path, target: Path)
    | Symlink(target: Path, link: Path)
    | CreateDirAll(path: Path)                  // a directory and its missing ancestors
    | OpenReadWrite(path: Path)
    | ReadMetadata(path: Path)
    | SetPermissions(path: Path, mode: u32)     // the permission change a mode asks for

  /** How a command ended: its exit code, killed by a signal, or not started or not awaited. */
  datatype ExitStatus = Exited(code: int) | Signalled | SpawnFailed

  datatype World = World(
    succeeds: (seq<Op>, Op) -> bool,
    status: (seq<Op>, string) -> ExitStatus,
    output: (seq<Op>, string) -> string)

  /**
   * The errors a build reports, with what they carry: an IO error on a file
   * names its inner path, data and type, one on a directory its full path, one
   * on a command the command; a command that exits non-zero gives its code.
   */
  datatype Error =
    | IoFile(innerPath: string, data: string, ftype: FileType)
    | IoDir(path: Path)
    | IoCommand(command: string)
    | CommandFailed(code: int, command: string)

  datatype Outcome = Outcome(ops: seq<Op>, err: Option<Error>)

  /** A signal counts as exit code 0; any other non-zero code is a failure. */
  function StatusError(s: ExitStatus, command: string): (e: Option<Error>)
    ensures e.None? <==> s == Signalled || s == Exited(0)
    ensures s.SpawnFailed? ==> e == Some(IoCommand(command))
    ensures s.Exited? && s.code != 0 ==> e == Some(CommandFailed(s.code, command))
  {
    match s
    case SpawnFailed => Some(IoCommand(command))
    case Signalled => None
    case Exited(code) => if code == 0 then None else Some(CommandFailed(code, command))
  }

  predicate CommandSucceeds(w: World, history: seq<Op>, command: string) {
    StatusError(w.status(history, command), command).None?
  }

  function RunOne(w: World, history: seq<Op>, command: string): Outcome {
    Outcome([Run(command)], StatusError(w.status(history, command), command))
  }

  // ---------------------------------------------------------------------------
  // Hooks

  /** Running a hook list: the commands run in order until the first failure. */
  function Hooks(w: World, history: seq<Op>, commands: seq<string>): (r: Outcome)
    ensures |r.ops| <= |commands|
    ensures forall i :: 0 <= i < |r.ops| ==> r.ops[i] == Run(commands[i])
    ensures r.err.None? ==> |r.ops| == |commands|
    ensures r.err.Some? ==> |r.ops| > 0
  {
    if commands == [] then Outcome([], None)
    else
      var prev := Hooks(w, history, commands[..|commands| - 1]);
      if prev.err.Some? then prev
      else
        var out := RunOne(w, history + prev.ops, commands[|commands| - 1]);
        Outcome(prev.ops + out.ops, out.err)
  }

  /**
   * Each command runs after the ones before it: every command run before the
   * last one succeeded, and so did the last unless it is the error reported.
   */
  lemma {:induction false} HooksRunInOrder(w: World, history: seq<Op>, commands: seq<string>)
    ensures var r := Hooks(w, history, commands);
            && (forall i :: 0 <= i < |r.ops| && (r.err.None? || i < |r.ops| - 1) ==>
                  CommandSucceeds(w, history + r.ops[..i], commands[i]))
            && (r.err.Some? ==>
                  r.err == StatusError(w.status(history + r.ops[..|r.ops| - 1], commands[|r.ops| - 1]), commands[|r.ops| - 1]))
  {
    if commands != [] {
      var prev := Hooks(w, history, commands[..|commands| - 1]);
      HooksRunInOrder(w, history, commands[..|commands| - 1]);
      if prev.err.None? {
        var r := Hooks(w, history, commands);
        assert forall i :: 0 <= i <= |prev.ops| ==> r.ops[..i] == prev.ops[..i];
      }
    }
  }

  /** Hooks only run commands: they touch no file themselves. */
  lemma HooksOnlyRun(w: World, history: seq<Op>, commands: seq<string>)
    ensures forall op :: op in Hooks(w, history, commands).ops ==> op.Run?
  {
  }

  /** A failed list stays failed, unchanged, whatever commands follow. */
  lemma {:induction false} HooksStopped(w: World, history: seq<Op>, commands: seq<string>, k: nat)
    requires k <= |commands| && Hooks(w, history, commands[..k]).err.Some?
    ensures Hooks(w, history, commands) == Hooks(w, history, commands[..k])
    decreases |commands| - k
  {
    if k < |commands| {
      assert commands[..k + 1][..k] == commands[..k];
      HooksStopped(w, history, commands, k + 1);
    } else {
      assert commands[..k] == commands;
    }
  }

  /** `for command in commands { run(command)?; }` */
  method RunHooks(w: World, history: seq<Op>, commands: seq<string>) returns (ops: seq<Op>, err: Option<Error>)
    ensures Outcome(ops, err) == Hooks(w, history, commands)
  {
    ops := [];
    var i := 0;
    while i < |commands|
      invariant 0 <= i <= |commands|
      invariant Hooks(w, history, commands[..i]) == Outcome(ops, None)
    {
      var command := commands[i];
      assert commands[..i + 1][..i] == commands[..i];
      var e := StatusError(w.status(history + ops, command), command);
      ops := ops + [Run(command)];
      if e.Some? {
        err := e;
        HooksStopped(w, history, commands, i + 1);
        return;
      }
      i := i + 1;
    }
    assert commands[..i] == commands;
    err := None;
  }

  // ---------------------------------------------------------------------------
  // One node

  /**
   * An inner path and the node found there. `depth` counts the directories
   * above the node, 0 for an entry of the root; the source does not record
   * it, so it is ghost.
   */
  datatype Item = Item(path: string, node: Node, ghost depth: nat)

  /** One filesystem operation, failing with `err`. */
  function Attempt(w: World, history: seq<Op>, op: Op, err: Error): (r: Outcome)
    ensures r.ops == [op]
    ensures r.err.None? <==> w.succeeds(history, op)
    ensures r.err.Some? ==> r.err.value == err
  {
    Outcome([op], if w.succeeds(history, op) then None else Some(err))
  }

  /**
   * Whether the world lets `op` through after `history`: a command must end
   * well, any other operation must succeed.
   */
  predicate OpAccepted(w: World, history: seq<Op>, op: Op) {
    match op
    case Run(command) => CommandSucceeds(w, history, command)
    case Pipe(command) => CommandSucceeds(w, history, command)
    case _ => w.succeeds(history, op)
  }

  /** Every operation of `ops` is let through, each after `history` and the operations before it. */
  predicate Accepted(w: World, history: seq<Op>, ops: seq<Op>)
    decreases |ops|
  {
    ops == [] || (Accepted(w, history, ops[..|ops| - 1]) && OpAccepted(w, history + ops[..|ops| - 1], ops[|ops| - 1]))
  }

  /** `Accepted` holds exactly when each operation is accepted after those before it. */
  lemma {:induction false} AcceptedEach(w: World, history: seq<Op>, ops: seq<Op>)
    ensures Accepted(w, history, ops) <==> forall i :: 0 <= i < |ops| ==> OpAccepted(w, history + ops[..i], ops[i])
    decreases |ops|
  {
    if ops != [] {
      var init := ops[..|ops| - 1];
      AcceptedEach(w, history, init);
      assert forall i :: 0 <= i < |init| ==> init[..i] == ops[..i] && init[i] == ops[i];
    }
  }

  /** A single operation is let through exactly when it is accepted; no operation at all always is. */
  lemma AcceptedSingle(w: World, history: seq<Op>, op: Op)
    ensures Accepted(w, history, [op]) == OpAccepted(w, history, op)
    ensures Accepted(w, history, [op][..0])
  {
    assert [op][..0] == [];
    assert history + [] == history;
  }

  /** Operations are let through in two runs exactly when the second is let through after the first. */
  lemma {:induction false} AcceptedAppend(w: World, history: seq<Op>, a: seq<Op>, b: seq<Op>)
    ensures Accepted(w, history, a + b) <==> Accepted(w, history, a) && Accepted(w, history + a, b)
    decreases |b|
  {
    if b == [] {
      assert a + b == a;
    } else {
      var init := b[..|b| - 1];
      assert (a + b)[..|a + b| - 1] == a + init;
      assert (a + b)[|a + b| - 1] == b[|b| - 1];
      assert history + (a + init) == (history + a) + init;
      AcceptedAppend(w, history, a, init);
    }
  }

  /**
   * Accepted operations followed by a step that reports an error exactly when
   * one of its operations is refused, and only at its last: so does the whole.
   */
  lemma AcceptedThen(w: World, history: seq<Op>, first: seq<Op>, next: Outcome)
    requires Accepted(w, history, first)
    requires next.err.None? <==> Accepted(w, history + first, next.ops)
    requires next.err.Some? ==> |next.ops| > 0 && Accepted(w, history + first, next.ops[..|next.ops| - 1])
    ensures next.err.None? <==> Accepted(w, history, first + next.ops)
    ensures next.err.Some? ==> Accepted(w, history, (first + next.ops)[..|first + next.ops| - 1])
  {
    AcceptedAppend(w, history, first, next.ops);
    if next.err.Some? {
      assert (first + next.ops)[..|first + next.ops| - 1] == first + next.ops[..|next.ops| - 1];
      AcceptedAppend(w, history, first, next.ops[..|next.ops| - 1]);
    }
  }

  /** `r` reports an error exactly when one of its operations is refused, and only at the last. */
  predicate StopsAtRefusal(w: World, history: seq<Op>, r: Outcome) {
    && (r.err.None? <==> Accepted(w, history, r.ops))
    && (r.err.Some? ==> |r.ops| > 0 && Accepted(w, history, r.ops[..|r.ops| - 1]))
  }

  /** A step that stops at the first refusal, run unless the one before it failed, keeps the whole stopping there. */
  lemma StopsThen(w: World, history: seq<Op>, prev: Outcome, next: Outcome)
    requires StopsAtRefusal(w, history, prev)
    requires StopsAtRefusal(w, history + prev.ops, next)
    ensures StopsAtRefusal(w, history, if prev.err.Some? then prev else Outcome(prev.ops + next.ops, next.err))
  {
    if prev.err.None? {
      AcceptedThen(w, history, prev.ops, next);
    }
  }

  /** Where an operation writes, for the operations that create a file. */
  function Target(op: Op): Option<Path> {
    match op
    case CreateEmpty(path) => Some(path)
    case Write(path, _) => Some(path)
    case CopyFile(_, target) => Some(target)
    case Symlink(_, link) => Some(link)
    case _ => None
  }

  /**
   * Creating a file's content at `root/inner`: an empty Text file is created
   * empty, other Text is written as is, Copy and Link use the resolved data
   * path, Piped writes what its command printed, Hex and Bits write the bytes
   * their data denotes. The last operation always targets the file.
   */
  function WriteContent(w: World, history: seq<Op>, root: Path, inner: string, data: string, options: FileOptions): (r: Outcome)
    requires DataValid(options.ftype, data)
    ensures 0 < |r.ops| <= 2
    ensures (options.ftype == Piped) == (|r.ops| == 2 || r.ops[0] == Pipe(data))
    ensures options.ftype == Piped ==> r.ops[0] == Pipe(data)
    ensures r.err.None? ==> Target(r.ops[|r.ops| - 1]) == Some(Join(root, inner))
    ensures options.ftype == Text ==> r.ops[0] == if data == [] then CreateEmpty(Join(root, inner)) else Write(Join(root, inner), TextContent(data))
    ensures options.ftype == Copy ==> r.ops[0] == CopyFile(ResolveDataPath(data, options.internal, root), Join(root, inner))
    ensures options.ftype == Link ==> r.ops[0] == Symlink(ResolveDataPath(data, options.internal, root), Join(root, inner))
    ensures options.ftype == Hex ==> r.ops[0] == Write(Join(root, inner), ByteContent(HexBytes(data)))
    ensures options.ftype == Bits ==> r.ops[0] == Write(Join(root, inner), ByteContent(BitsBytes(data)))
    ensures options.ftype == Piped && |r.ops| == 2 ==>
              CommandSucceeds(w, history, data) && r.ops[1] == Write(Join(root, inner), TextContent(w.output(history, data)))
    ensures r.err.Some? ==> r.err.value == IoFile(inner, data, options.ftype)
                            || (options.ftype == Piped && r.ops == [Pipe(data)] && r.err == StatusError(w.status(history, data), data))
  {
    var path := Join(root, inner);
    var failure := IoFile(inner, data, options.ftype);
    match options.ftype
    case Text =>
      if |data| == 0 then Attempt(w, history, CreateEmpty(path), failure)
      else Attempt(w, history, Write(path, TextContent(data)), failure)
    case Copy => Attempt(w, history, CopyFile(ResolveDataPath(data, options.internal, root), path), failure)
    case Link => Attempt(w, history, Symlink(ResolveDataPath(data, options.internal, root), path), failure)
    case Piped =>
      var e := StatusError(w.status(history, data), data);
      if e.Some? then Outcome([Pipe(data)], e)
      else
        var out := Attempt(w, history + [Pipe(data)], Write(path, TextContent(w.output(history, data))), failure);
        Outcome([Pipe(data)] + out.ops, out.err)
    case Hex => Attempt(w, history, Write(path, ByteContent(HexBytes(data))), failure)
    case Bits => Attempt(w, history, Write(path, ByteContent(BitsBytes(data))), failure)
  }

  /**
   * What a mode does: the file is opened read-write and its metadata read,
   * and either can fail; the permissions are changed only on a copy, so no
   * permission change is attempted.
   */
  function ApplyMode(w: World, history: seq<Op>, root: Path, inner: string, data: string, options: FileOptions): (r: Outcome)
    ensures options.mode.None? ==> r == Outcome([], None)
    ensures options.mode.Some? ==> 0 < |r.ops| <= 2 && r.ops == [OpenReadWrite(Join(root, inner)), ReadMetadata(Join(root, inner))][..|r.ops|]
    ensures |r.ops| == 1 ==> r.err.Some?
    ensures forall op :: op in r.ops ==> !op.SetPermissions?
    ensures r.err.Some? ==> r.err.value == IoFile(inner, data, options.ftype)
  {
    if options.mode.None? then Outcome([], None)
    else
      var path := Join(root, inner);
      var failure := IoFile(inner, data, options.ftype);
      var open := Attempt(w, history, OpenReadWrite(path), failure);
      if open.err.Some? then open
      else
        var meta := Attempt(w, history + open.ops, ReadMetadata(path), failure);
        Outcome(open.ops + meta.ops, meta.err)
  }

  /** A filesystem operation fails exactly when the world refuses it. */
  lemma AttemptStops(w: World, history: seq<Op>, op: Op, err: Error)
    requires !op.Run? && !op.Pipe?
    ensures StopsAtRefusal(w, history, Attempt(w, history, op, err))
  {
    AcceptedSingle(w, history, op);
  }

  /**
   * Creating a file's content fails exactly when the world refuses one of its
   * operations (a Piped file's command, then its write), and then at the last.
   */
  lemma WriteContentAccepted(w: World, history: seq<Op>, root: Path, inner: string, data: string, options: FileOptions)
    requires DataValid(options.ftype, data)
    ensures var r := WriteContent(w, history, root, inner, data, options);
            && (r.err.None? <==> Accepted(w, history, r.ops))
            && (r.err.Some? ==> |r.ops| > 0 && Accepted(w, history, r.ops[..|r.ops| - 1]))
  {
    var path := Join(root, inner);
    var failure := IoFile(inner, data, options.ftype);
    match options.ftype
    case Text =>
      if |data| == 0 {
        AttemptStops(w, history, CreateEmpty(path), failure);
      } else {
        AttemptStops(w, history, Write(path, TextContent(data)), failure);
      }
    case Copy => AttemptStops(w, history, CopyFile(ResolveDataPath(data, options.internal, root), path), failure);
    case Link => AttemptStops(w, history, Symlink(ResolveDataPath(data, options.internal, root), path), failure);
    case Piped =>
      AcceptedSingle(w, history, Pipe(data));
      var write := Write(path, TextContent(w.output(history, data)));
      AttemptStops(w, history + [Pipe(data)], write, failure);
      StopsThen(w, history, Outcome([Pipe(data)], StatusError(w.status(history, data), data)),
                Attempt(w, history + [Pipe(data)], write, failure));
    case Hex => AttemptStops(w, history, Write(path, ByteContent(HexBytes(data))), failure);
    case Bits => AttemptStops(w, history, Write(path, ByteContent(BitsBytes(data))), failure);
  }

  /**
   * A mode fails exactly when the world refuses the read-write opening or the
   * metadata read, and then at that operation.
   */
  lemma ApplyModeAccepted(w: World, history: seq<Op>, root: Path, inner: string, data: string, options: FileOptions)
    ensures var r := ApplyMode(w, history, root, inner, data, options);
            && (r.err.None? <==> Accepted(w, history, r.ops))
            && (r.err.Some? ==> |r.ops| > 0 && Accepted(w, history, r.ops[..|r.ops| - 1]))
  {
    if options.mode.Some? {
      var path := Join(root, inner);
      var failure := IoFile(inner, data, options.ftype);
      var open := Attempt(w, history, OpenReadWrite(path), failure);
      AttemptStops(w, history, OpenReadWrite(path), failure);
      AttemptStops(w, history + open.ops, ReadMetadata(path), failure);
      StopsThen(w, history, open, Attempt(w, history + open.ops, ReadMetadata(path), failure));
    }
  }

  /**
   * The error names the item it came from: the file's inner path, data and
   * type, a Piped file's own command, or a directory's full path.
   */
  predicate Blames(e: Error, x: Item, root: Path) {
    match x.node
    case File(data, options) =>
      e == IoFile(x.path, data, options.ftype) || (options.ftype == Piped && (e == IoCommand(data) || (e.CommandFailed? && e.command == data)))
    case Directory(_, _) => e == IoDir(Join(root, x.path))
    case Comment(_) => false
  }

  predicate ItemValid(x: Item) {
    x.node.File? ==> DataValid(x.node.options.ftype, x.node.data)
  }

  /**
   * Processing one node that is not deferred: a directory is created with its
   * ancestors, a file gets its content and then its mode, a comment does
   * nothing. An error blames the item, and a mode never changes permissions.
   */
  function ProcessItem(w: World, history: seq<Op>, root: Path, x: Item): (r: Outcome)
    requires ItemValid(x)
    ensures x.node.Directory? ==> r.ops == [CreateDirAll(Join(root, x.path))]
    ensures x.node.Comment? ==> r == Outcome([], None)
    ensures x.node.File? ==> 0 < |r.ops| && (r.err.Some? || exists i :: 0 <= i < |r.ops| && Target(r.ops[i]) == Some(Join(root, x.path)))
    ensures r.err.Some? ==> Blames(r.err.value, x, root)
    ensures forall op :: op in r.ops ==> !op.SetPermissions? && !op.Run?
  {
    match x.node
    case Directory(_, _) => Attempt(w, history, CreateDirAll(Join(root, x.path)), IoDir(Join(root, x.path)))
    case Comment(_) => Outcome([], None)
    case File(data, options) =>
      var content := WriteContent(w, history, root, x.path, data, options);
      if content.err.Some? then content
      else
        var mode := ApplyMode(w, history + content.ops, root, x.path, data, options);
        assert (content.ops + mode.ops)[|content.ops| - 1] == content.ops[|content.ops| - 1];
        Outcome(content.ops + mode.ops, mode.err)
  }

  /**
   * Processing an item fails exactly when the world refuses one of its
   * operations, and then at the last one.
   */
  lemma ProcessItemAccepted(w: World, history: seq<Op>, root: Path, x: Item)
    requires ItemValid(x)
    ensures var r := ProcessItem(w, history, root, x);
            && (r.err.None? <==> Accepted(w, history, r.ops))
            && (r.err.Some? ==> |r.ops| > 0 && Accepted(w, history, r.ops[..|r.ops| - 1]))
  {
    match x.node
    case Directory(_, _) =>
      AttemptStops(w, history, CreateDirAll(Join(root, x.path)), IoDir(Join(root, x.path)));
    case Comment(_) =>
    case File(data, options) =>
      var content := WriteContent(w, history, root, x.path, data, options);
      var mode := ApplyMode(w, history + content.ops, root, x.path, data, options);
      WriteContentAccepted(w, history, root, x.path, data, options);
      ApplyModeAccepted(w, history + content.ops, root, x.path, data, options);
      StopsThen(w, history, content, mode);
      assert ProcessItem(w, history, root, x) == if content.err.Some? then content else Outcome(content.ops + mode.ops, mode.err);
  }

  /** A world that refuses an empty file's creation makes it fail, with an IO error naming the file. */
  lemma RefusedCreateExample(w: World)
    requires !w.succeeds([], CreateEmpty("R/f"))
    ensures ProcessItem(w, [], "R", Item("f", File("", DefaultOptions), 0))
            == Outcome([CreateEmpty("R/f")], Some(IoFile("f", "", Text)))
  {
    assert Join("R", "f") == "R/f";
    assert WriteContent(w, [], "R", "f", "", DefaultOptions) == Outcome([CreateEmpty("R/f")], Some(IoFile("f", "", Text)));
  }

  /**
   * A world that lets a file be written but refuses to open it for its mode
   * makes it fail at the opening, with an IO error naming the file.
   */
  lemma RefusedOpenExample(w: World)
    requires w.succeeds([], Write("R/g", TextContent("hi")))
    requires !w.succeeds([Write("R/g", TextContent("hi"))], OpenReadWrite("R/g"))
    ensures ProcessItem(w, [], "R", Item("g", File("hi", FileOptions(Text, Some(420), 0, false)), 0))
            == Outcome([Write("R/g", TextContent("hi")), OpenReadWrite("R/g")], Some(IoFile("g", "hi", Text)))
  {
    var options := FileOptions(Text, Some(420), 0, false);
    assert Join("R", "g") == "R/g";
    assert WriteContent(w, [], "R", "g", "hi", options) == Outcome([Write("R/g", TextContent("hi"))], None);
    assert [] + [Write("R/g", TextContent("hi"))] == [Write("R/g", TextContent("hi"))];
    assert ApplyMode(w, [Write("R/g", TextContent("hi"))], "R", "g", "hi", options)
           == Outcome([OpenReadWrite("R/g")], Some(IoFile("g", "hi", Text)));
    assert [Write("R/g", TextContent("hi"))] + [OpenReadWrite("R/g")] == [Write("R/g", TextContent("hi")), OpenReadWrite("R/g")];
  }

  /**
   * Processing items in order, each seeing the operations before it, until
   * the first error.
   */
  function Replay(w: World, history: seq<Op>, root: Path, items: seq<Item>): (r: Outcome)
    requires forall i :: 0 <= i < |items| ==> ItemValid(items[i])
    ensures r.err.Some? ==> exists k :: 0 <= k < |items| && Blames(r.err.value, items[k], root)
    ensures forall op :: op in r.ops ==> !op.SetPermissions? && !op.Run?
  {
    if items == [] then Outcome([], None)
    else
      var prev := Replay(w, history, root, items[..|items| - 1]);
      if prev.err.Some? then Outcome(prev.ops, prev.err)
      else
        var out := ProcessItem(w, history + prev.ops, root, items[|items| - 1]);
        Outcome(prev.ops + out.ops, out.err)
  }

  /**
   * The items replayed report no error exactly when the world let every one
   * of their operations through; on an error, it let through every operation
   * before the last one.
   */
  lemma ReplayAccepted(w: World, history: seq<Op>, root: Path, items: seq<Item>)
    requires forall i :: 0 <= i < |items| ==> ItemValid(items[i])
    ensures var r := Replay(w, history, root, items);
            && (r.err.None? <==> Accepted(w, history, r.ops))
            && (r.err.Some? ==> |r.ops| > 0 && Accepted(w, history, r.ops[..|r.ops| - 1]))
  {
    ReplayStops(w, history, root, items);
  }

  lemma {:induction false} ReplayStops(w: World, history: seq<Op>, root: Path, items: seq<Item>)
    requires forall i :: 0 <= i < |items| ==> ItemValid(items[i])
    ensures StopsAtRefusal(w, history, Replay(w, history, root, items))
    decreases |items|
  {
    if items != [] {
      var init := items[..|items| - 1];
      var x := items[|items| - 1];
      ReplayStops(w, history, root, init);
      var prev := Replay(w, history, root, init);
      var out := ProcessItem(w, history + prev.ops, root, x);
      ProcessItemAccepted(w, history + prev.ops, root, x);
      StopsThen(w, history, prev, out);
      assert Replay(w, history, root, items) == if prev.err.Some? then prev else Outcome(prev.ops + out.ops, out.err);
    }
  }

  lemma ReplaySnoc(w: World, history: seq<Op>, root: Path, items: seq<Item>, x: Item)
    requires forall i :: 0 <= i < |items| ==> ItemValid(items[i])
    requires ItemValid(x) && Replay(w, history, root, items).err.None?
    ensures var prev := Replay(w, history, root, items);
            var out := ProcessItem(w, history + prev.ops, root, x);
            Replay(w, history, root, items + [x]) == Outcome(prev.ops + out.ops, out.err)
  {
    assert (items + [x])[..|items|] == items;
  }
}
