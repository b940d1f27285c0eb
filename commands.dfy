/** The shell commands of lib/commands.js: the dispatcher and the handlers that act on the
    file system. Each handler is a method calling the file system's methods; what it returns
    and how it leaves the file system is stated by a function of the state before the call. */
module Commands {
  import opened Text
  import opened FileSystem
  import CommandParser

  /** What a handler returns: `{success: true}`, `{success: false, message}`, the file
      system's own result passed on unchanged, the editor being entered for a file, an
      exception thrown out of the handler, or the value of a built-in method inherited from
      `Object.prototype` that the handler table's lookup found instead of a handler. */
  datatype Outcome =
    | Done
    | Failed(message: string)
    | Fs(result: FsResult)
    | Editor(path: string, initialContent: string)
    | Threw(message: string)
    | Builtin(name: string)

  /** A command's result, the file system after it, and the argument of `updatePath` when
      the command called it. */
  datatype Effect = Effect(out: Outcome, nodes: Tree, clock: nat, newPath: Option<string>)

  /** The commands with a handler. */
  const Handlers: set<string> :=
    {"help", "ls", "cd", "mkdir", "touch", "cat", "edit", "rm", "mv", "cp",
     "pwd", "echo", "clear", "date", "whoami", "sysinfo"}

  /** The commands `help` has an entry for. */
  const HelpTopics: set<string> :=
    {"help", "desktop", "browser", "bios", "db", "ls", "cd", "mkdir", "touch", "cat", "edit",
     "rm", "mv", "cp", "pwd", "echo", "clear", "date", "whoami", "sysinfo", "exit"}

  /** The properties every object literal inherits from `Object.prototype`: looking one of
      them up in the handler table or the help table finds a built-in, not `undefined`. */
  const ObjectMembers: set<string> :=
    {"constructor", "__proto__", "__defineGetter__", "__defineSetter__", "__lookupGetter__",
     "__lookupSetter__", "hasOwnProperty", "isPrototypeOf", "propertyIsEnumerable",
     "toString", "toLocaleString", "valueOf"}

  const HomeDirectory := "/home/user"

  function NotFoundMessage(command: string): string {
    "Command not found: " + command + ". Type 'help' for available commands."
  }

  const MkdirUsage := "mkdir: missing operand. Try \"help mkdir\" for more information."
  const TouchUsage := "touch: missing file operand. Try \"help touch\" for more information."
  const CatUsage := "cat: missing file operand. Try \"help cat\" for more information."
  const EditUsage := "edit: missing file operand. Try \"help edit\" for more information."
  const RmUsage := "rm: missing operand. Try \"help rm\" for more information."
  const RmNoFile := "rm: missing file operand"
  const MvUsage := "mv: missing operand. Try \"help mv\" for more information."
  const CpUsage := "cp: missing operand. Try \"help cp\" for more information."
  /** What reading `startsWith` of an `undefined` name throws. */
  const UndefinedName := "Cannot read properties of undefined (reading 'startsWith')"
  /** What reading `forEach` of the missing `examples` of an inherited help entry throws. */
  const NoExamples := "Cannot read properties of undefined (reading 'forEach')"

  // ---------------------------------------------------------------------------------------
  // Option scanning for ls and rm

  predicate IsOption(arg: string) {
    StartsWith(arg, "-")
  }

  /** Every argument is an option. */
  predicate NoOperand(args: seq<string>) {
    forall k :: 0 <= k < |args| ==> IsOption(args[k])
  }

  /** `args[j]` is the last argument that is not an option. */
  predicate LastOperandAt(args: seq<string>, j: int) {
    0 <= j < |args| && !IsOption(args[j]) && forall k :: j < k < |args| ==> IsOption(args[k])
  }

  /** Some option contains the letter `c`. */
  predicate OptionHas(args: seq<string>, c: char) {
    exists k :: 0 <= k < |args| && IsOption(args[k]) && c in args[k]
  }

  datatype LsFlags = LsFlags(details: bool, hidden: bool, target: string)

  /** The state of `handleLs`'s `forEach` after the arguments `args`. */
  function LsScan(args: seq<string>, cwd: string): LsFlags
    decreases |args|
  {
    if |args| == 0 then LsFlags(false, false, cwd)
    else
      var f := LsScan(args[..|args| - 1], cwd);
      var arg := args[|args| - 1];
      if IsOption(arg) then f.(details := f.details || 'l' in arg, hidden := f.hidden || 'a' in arg)
      else f.(target := CommandParser.ResolvePath(arg, cwd))
  }

  datatype RmFlags = RmFlags(recursive: bool, pathArg: string)

  /** The state of `handleRm`'s `forEach` after the arguments `args`. */
  function RmScan(args: seq<string>): RmFlags
    decreases |args|
  {
    if |args| == 0 then RmFlags(false, "")
    else
      var f := RmScan(args[..|args| - 1]);
      var arg := args[|args| - 1];
      if IsOption(arg) then f.(recursive := f.recursive || 'r' in arg) else f.(pathArg := arg)
  }

  // ---------------------------------------------------------------------------------------
  // The handlers as functions of the state before the call

  function HelpCommand(args: seq<string>): Outcome {
    if |args| == 0 || args[0] in HelpTopics then Done
    else if args[0] in ObjectMembers then Threw(NoExamples)
    else Failed("No help available for '" + args[0] + "'. Type 'help' for a list of commands.")
  }

  /** A name `ls` hides: one starting with '.'. */
  predicate DotName(i: Item)
    requires i.name.Named?
  {
    StartsWith(i.name.s, ".")
  }

  /** What `ls` returns and the entries it shows. */
  function LsCommand(t: Tree, root: NodeId, args: seq<string>, cwd: string): (Outcome, set<Item>)
    requires Closed(t) && root in t
  {
    var f := LsScan(args, cwd);
    var r := ListOutcome(t, root, f.target);
    if !r.Listing? then (Fs(r), {})
    else if f.hidden then (Done, r.items)
    else if exists i | i in r.items :: i.name.Undefined? then (Threw(UndefinedName), {})
    else (Done, set i | i in r.items && i.name.Named? && !DotName(i))
  }

  function CdTarget(args: seq<string>, cwd: string): string {
    if |args| == 0 || args[0] == "~" then HomeDirectory else CommandParser.ResolvePath(args[0], cwd)
  }

  /** What `cd` returns and the path it hands to `updatePath`, if any. */
  function CdCommand(t: Tree, root: NodeId, args: seq<string>, cwd: string): (Outcome, Option<string>)
    requires Closed(t) && root in t
  {
    var target := CdTarget(args, cwd);
    var res := Resolve(t, root, target, Nil);
    if !res.Found? then (Failed("Directory not found: " + target), None)
    else if t[res.node].kind != Directory then (Failed("Not a directory: " + target), None)
    else (Done, Some(target))
  }

  function MkdirCommand(t: Tree, root: NodeId, args: seq<string>, cwd: string, c: NodeId, clock: nat): Effect
    requires Closed(t) && root in t
  {
    if |args| == 0 then Effect(Failed(MkdirUsage), t, clock, None)
    else
      var abs := AbsolutePath(args[0], cwd);
      var r := MkdirOutcome(t, root, abs);
      var now := if r.Ok? then clock + 1 else clock;
      Effect(Fs(r), MkdirTree(t, root, abs, c, now), now, None)
  }

  /** `touch` is `writeFile` with empty content. */
  function TouchCommand(t: Tree, root: NodeId, args: seq<string>, cwd: string, c: NodeId, clock: nat): Effect
    requires Closed(t) && root in t
  {
    if |args| == 0 then Effect(Failed(TouchUsage), t, clock, None)
    else
      var abs := AbsolutePath(args[0], cwd);
      var r := WriteOutcome(t, root, abs);
      var now := if r.Ok? then clock + 1 else clock;
      Effect(Fs(r), WriteTree(t, root, abs, "", c, now), now, None)
  }

  function CatCommand(t: Tree, root: NodeId, args: seq<string>, cwd: string): Outcome
    requires Closed(t) && root in t
  {
    if |args| == 0 then Failed(CatUsage)
    else
      var r := ReadOutcome(t, root, AbsolutePath(args[0], cwd));
      if !r.Success() then Fs(r) else Done
  }

  /** `edit` enters the editor for the absolute path, starting from the file's content when
      the file can be read. */
  function EditCommand(t: Tree, root: NodeId, args: seq<string>, cwd: string): Outcome
    requires Closed(t) && root in t
  {
    if |args| == 0 then Failed(EditUsage)
    else
      var abs := AbsolutePath(args[0], cwd);
      var r := ReadOutcome(t, root, AbsolutePath(abs, "/"));
      Editor(abs, if r.FileContent? then r.content else "")
  }

  function RmCommand(t: Tree, root: NodeId, args: seq<string>, cwd: string, clock: nat): Effect
    requires Closed(t) && root in t
  {
    if |args| == 0 then Effect(Failed(RmUsage), t, clock, None)
    else
      var pathArg := RmScan(args).pathArg;
      if pathArg == "" then Effect(Failed(RmNoFile), t, clock, None)
      else
        var abs := AbsolutePath(pathArg, cwd);
        Effect(Fs(DeleteOutcome(t, root, abs)), DeleteTree(t, root, abs), clock, None)
  }

  /** The moves the model covers (see `MoveStaysInTree`). */
  predicate MvAllowed(t: Tree, root: NodeId, path: map<NodeId, seq<string>>, args: seq<string>, cwd: string)
    requires TreeInv(t, root, path)
  {
    |args| >= 2 ==> MoveStaysInTree(t, root, path, AbsolutePath(args[0], cwd), AbsolutePath(args[1], cwd))
  }

  function MvCommand(t: Tree, root: NodeId, path: map<NodeId, seq<string>>, args: seq<string>, cwd: string,
                     clock: nat): Effect
    requires TreeInv(t, root, path) && MvAllowed(t, root, path, args, cwd)
  {
    if |args| < 2 then Effect(Failed(MvUsage), t, clock, None)
    else
      var src, dst := AbsolutePath(args[0], cwd), AbsolutePath(args[1], cwd);
      var r := MoveOutcome(t, root, src, dst);
      var now := if r.Ok? then clock + 1 else clock;
      Effect(Fs(r), MoveTree(t, root, path, src, dst, now), now, None)
  }

  function CpCommand(t: Tree, root: NodeId, args: seq<string>, cwd: string, c: NodeId, clock: nat): Effect
    requires Closed(t) && root in t
  {
    if |args| < 2 then Effect(Failed(CpUsage), t, clock, None)
    else
      var src, dst := AbsolutePath(args[0], cwd), AbsolutePath(args[1], cwd);
      var r := CopyOutcome(t, root, src, dst);
      var now := if r.Ok? then clock + 1 else clock;
      Effect(Fs(r), CopyTree(t, root, src, dst, c, now), now, None)
  }

  /** `executeCommand`: the handler of a known command, a failure for any other non-empty
      command, and `{success: true}` for the empty command. */
  function Execute(t: Tree, root: NodeId, path: map<NodeId, seq<string>>, c: NodeId, clock: nat,
                   command: string, args: seq<string>, cwd: string): Effect
    requires TreeInv(t, root, path) && (command == "mv" ==> MvAllowed(t, root, path, args, cwd))
  {
    if command == "help" then Effect(HelpCommand(args), t, clock, None)
    else if command == "ls" then Effect(LsCommand(t, root, args, cwd).0, t, clock, None)
    else if command == "cd" then
      var (o, p) := CdCommand(t, root, args, cwd);
      Effect(o, t, clock, p)
    else if command == "mkdir" then MkdirCommand(t, root, args, cwd, c, clock)
    else if command == "touch" then TouchCommand(t, root, args, cwd, c, clock)
    else if command == "cat" then Effect(CatCommand(t, root, args, cwd), t, clock, None)
    else if command == "edit" then Effect(EditCommand(t, root, args, cwd), t, clock, None)
    else if command == "rm" then RmCommand(t, root, args, cwd, clock)
    else if command == "mv" then MvCommand(t, root, path, args, cwd, clock)
    else if command == "cp" then CpCommand(t, root, args, cwd, c, clock)
    else if command in {"pwd", "echo", "clear", "date", "whoami", "sysinfo"} then Effect(Done, t, clock, None)
    else if command in ObjectMembers then Effect(Builtin(command), t, clock, None)
    else if command != "" then Effect(Failed(NotFoundMessage(command)), t, clock, None)
    else Effect(Done, t, clock, None)
  }

  // ---------------------------------------------------------------------------------------
  // The handlers

  /** `handleLs`: scans the options, lists the target and filters out the hidden names. */
  method HandleLs(fs: FileSystem, args: seq<string>, cwd: string) returns (out: Outcome, shown: set<Item>)
    requires fs.Valid()
    ensures (out, shown) == LsCommand(fs.nodes, fs.root, args, cwd)
  {
    var showDetails := false;
    var showHidden := false;
    var targetPath := cwd;
    for i := 0 to |args|
      invariant LsFlags(showDetails, showHidden, targetPath) == LsScan(args[..i], cwd)
    {
      var arg := args[i];
      assert args[..i + 1][..i] == args[..i];
      if StartsWith(arg, "-") {
        if 'l' in arg {
          showDetails := true;
        }
        if 'a' in arg {
          showHidden := true;
        }
      } else {
        targetPath := CommandParser.ResolvePath(arg, cwd);
      }
    }
    assert args[..|args|] == args;
    var result := fs.ListDirectory(targetPath);
    if !result.Listing? {
      return Fs(result), {};
    }
    var items := result.items;
    if !showHidden {
      if exists i | i in items :: i.name.Undefined? {
        return Threw(UndefinedName), {};
      }
      items := set i | i in items && i.name.Named? && !DotName(i);
    }
    return Done, items;
  }

  /** `handleCd`: on success the target is handed to `updatePath`. */
  method HandleCd(fs: FileSystem, args: seq<string>, cwd: string) returns (out: Outcome, newPath: Option<string>)
    requires fs.Valid()
    ensures (out, newPath) == CdCommand(fs.nodes, fs.root, args, cwd)
  {
    var targetPath;
    if |args| == 0 || args[0] == "~" {
      targetPath := HomeDirectory;
    } else {
      targetPath := CommandParser.ResolvePath(args[0], cwd);
    }
    var res := fs.ResolvePath(targetPath, Nil);
    if !res.Found? {
      return Failed("Directory not found: " + targetPath), None;
    }
    if fs.nodes[res.node].kind != Directory {
      return Failed("Not a directory: " + targetPath), None;
    }
    return Done, Some(if targetPath == "/" then "/" else targetPath);
  }

  method HandleMkdir(fs: FileSystem, args: seq<string>, cwd: string) returns (out: Outcome)
    requires fs.Valid()
    modifies fs
    ensures fs.Valid()
    ensures Effect(out, fs.nodes, fs.clock, None) == MkdirCommand(old(fs.nodes), fs.root, args, cwd, old(fs.nextId), old(fs.clock))
  {
    if |args| == 0 {
      return Failed(MkdirUsage);
    }
    var r := fs.Mkdir(args[0], cwd);
    return Fs(r);
  }

  method HandleTouch(fs: FileSystem, args: seq<string>, cwd: string) returns (out: Outcome)
    requires fs.Valid()
    modifies fs
    ensures fs.Valid()
    ensures Effect(out, fs.nodes, fs.clock, None) == TouchCommand(old(fs.nodes), fs.root, args, cwd, old(fs.nextId), old(fs.clock))
  {
    if |args| == 0 {
      return Failed(TouchUsage);
    }
    var r := fs.WriteFile(args[0], "", cwd);
    return Fs(r);
  }

  method HandleCat(fs: FileSystem, args: seq<string>, cwd: string) returns (out: Outcome)
    requires fs.Valid()
    ensures out == CatCommand(fs.nodes, fs.root, args, cwd)
  {
    if |args| == 0 {
      return Failed(CatUsage);
    }
    var result := fs.ReadFile(args[0], cwd);
    if !result.Success() {
      return Fs(result);
    }
    return Done;
  }

  /** The part of `handleEdit` before the editor's input loop. */
  method HandleEdit(fs: FileSystem, args: seq<string>, cwd: string) returns (out: Outcome)
    requires fs.Valid()
    ensures out == EditCommand(fs.nodes, fs.root, args, cwd)
  {
    if |args| == 0 {
      return Failed(EditUsage);
    }
    var filePath := args[0];
    var absolutePath := if StartsWith(filePath, "/") then filePath else ReplaceFirst(cwd + "/" + filePath, "//", "/");
    var existingFile := fs.ReadFile(absolutePath, "/");
    var initialContent := "";
    if existingFile.Success() {
      initialContent := existingFile.content;
    }
    return Editor(absolutePath, initialContent);
  }

  /** `handleRm`: the last argument that is not an option is deleted; options are read but
      not passed on. */
  method HandleRm(fs: FileSystem, args: seq<string>, cwd: string) returns (out: Outcome)
    requires fs.Valid()
    modifies fs
    ensures fs.Valid()
    ensures Effect(out, fs.nodes, fs.clock, None) == RmCommand(old(fs.nodes), fs.root, args, cwd, old(fs.clock))
  {
    if |args| == 0 {
      return Failed(RmUsage);
    }
    var recursive := false;
    var pathArg := "";
    for i := 0 to |args|
      invariant RmFlags(recursive, pathArg) == RmScan(args[..i])
    {
      var arg := args[i];
      assert args[..i + 1][..i] == args[..i];
      if StartsWith(arg, "-") {
        if 'r' in arg {
          recursive := true;
        }
      } else {
        pathArg := arg;
      }
    }
    assert args[..|args|] == args;
    if pathArg == "" {
      return Failed(RmNoFile);
    }
    var r := fs.Delete(pathArg, cwd);
    return Fs(r);
  }

  method HandleMv(fs: FileSystem, args: seq<string>, cwd: string) returns (out: Outcome)
    requires fs.Valid() && MvAllowed(fs.nodes, fs.root, fs.path, args, cwd)
    modifies fs
    ensures fs.Valid()
    ensures Effect(out, fs.nodes, fs.clock, None) == MvCommand(old(fs.nodes), fs.root, old(fs.path), args, cwd, old(fs.clock))
  {
    if |args| < 2 {
      return Failed(MvUsage);
    }
    var r := fs.Move(args[0], args[1], cwd);
    return Fs(r);
  }

  method HandleCp(fs: FileSystem, args: seq<string>, cwd: string) returns (out: Outcome)
    requires fs.Valid()
    modifies fs
    ensures fs.Valid()
    ensures Effect(out, fs.nodes, fs.clock, None) == CpCommand(old(fs.nodes), fs.root, args, cwd, old(fs.nextId), old(fs.clock))
  {
    if |args| < 2 {
      return Failed(CpUsage);
    }
    var r := fs.Copy(args[0], args[1], cwd);
    return Fs(r);
  }

  /** `executeCommand(command, args, context)` with `context.currentPath == cwd`; `newPath`
      is the argument of `context.updatePath` when the command called it. */
  method ExecuteCommand(fs: FileSystem, command: string, args: seq<string>, cwd: string)
    returns (out: Outcome, newPath: Option<string>)
    requires fs.Valid() && (command == "mv" ==> MvAllowed(fs.nodes, fs.root, fs.path, args, cwd))
    modifies fs
    ensures fs.Valid()
    ensures Effect(out, fs.nodes, fs.clock, newPath)
         == Execute(old(fs.nodes), fs.root, old(fs.path), old(fs.nextId), old(fs.clock), command, args, cwd)
  {
    newPath := None;
    if command == "help" {
      out := HelpCommand(args);
    } else if command == "ls" {
      var shown;
      out, shown := HandleLs(fs, args, cwd);
    } else if command == "cd" {
      out, newPath := HandleCd(fs, args, cwd);
    } else if command == "mkdir" {
      out := HandleMkdir(fs, args, cwd);
    } else if command == "touch" {
      out := HandleTouch(fs, args, cwd);
    } else if command == "cat" {
      out := HandleCat(fs, args, cwd);
    } else if command == "edit" {
      out := HandleEdit(fs, args, cwd);
    } else if command == "rm" {
      out := HandleRm(fs, args, cwd);
    } else if command == "mv" {
      out := HandleMv(fs, args, cwd);
    } else if command == "cp" {
      out := HandleCp(fs, args, cwd);
    } else if command in {"pwd", "echo", "clear", "date", "whoami", "sysinfo"} {
      out := Done;
    } else if command in ObjectMembers {
      out := Builtin(command);
    } else if command != "" {
      out := Failed(NotFoundMessage(command));
    } else {
      out := Done;
    }
  }

  // ---------------------------------------------------------------------------------------
  // What the handlers promise

  /** `ls` shows hidden names exactly when some option contains 'a' (and the long format
      exactly when one contains 'l'); without a path argument it lists the working
      directory. */
  lemma {:induction false} LsOptionFlags(args: seq<string>, cwd: string)
    ensures LsScan(args, cwd).hidden <==> OptionHas(args, 'a')
    ensures LsScan(args, cwd).details <==> OptionHas(args, 'l')
    ensures NoOperand(args) ==> LsScan(args, cwd).target == cwd
    decreases |args|
  {
    if |args| > 0 {
      var init, arg := args[..|args| - 1], args[|args| - 1];
      LsOptionFlags(init, cwd);
      OptionHasSnoc(init, arg, 'a');
      OptionHasSnoc(init, arg, 'l');
      if NoOperand(args) {
        assert NoOperand(init) by {
          forall k | 0 <= k < |init| ensures IsOption(init[k]) {
            assert init[k] == args[k];
          }
        }
      }
    }
  }

  lemma OptionHasSnoc(init: seq<string>, arg: string, c: char)
    ensures OptionHas(init + [arg], c) <==> OptionHas(init, c) || (IsOption(arg) && c in arg)
  {
    var args := init + [arg];
    if OptionHas(args, c) {
      var k :| 0 <= k < |args| && IsOption(args[k]) && c in args[k];
      if k < |init| {
        assert init[k] == args[k];
      }
    }
    if OptionHas(init, c) {
      var k :| 0 <= k < |init| && IsOption(init[k]) && c in init[k];
      assert args[k] == init[k];
    }
    if IsOption(arg) && c in arg {
      assert args[|init|] == arg;
    }
  }

  /** The last path argument of `ls` wins. */
  lemma {:induction false} LsLastOperand(args: seq<string>, cwd: string, j: int)
    requires LastOperandAt(args, j)
    ensures LsScan(args, cwd).target == CommandParser.ResolvePath(args[j], cwd)
    decreases |args|
  {
    if j < |args| - 1 {
      var init := args[..|args| - 1];
      assert init[j] == args[j];
      assert LastOperandAt(init, j) by {
        forall k | j < k < |init| ensures IsOption(init[k]) {
          assert init[k] == args[k];
        }
      }
      LsLastOperand(init, cwd, j);
    }
  }

  /** What `ls` returns and shows: a failed listing is returned unchanged; otherwise an entry
      is shown exactly when hidden names are asked for or its name does not start with '.',
      and an entry without a name makes the filter throw. */
  lemma LsShows(t: Tree, root: NodeId, args: seq<string>, cwd: string)
    requires Closed(t) && root in t
    ensures var r := ListOutcome(t, root, LsScan(args, cwd).target);
      var (o, shown) := LsCommand(t, root, args, cwd);
      && (r.Fail? ==> o == Fs(r) && shown == {})
      && (r.Listing? ==> o == Done || o == Threw(UndefinedName))
      && (o == Done ==> r.Listing? && forall i | i in r.items ::
            (i in shown <==> OptionHas(args, 'a') || (i.name.Named? && !DotName(i))))
      && (o.Threw? ==> !OptionHas(args, 'a') && r.Listing? && exists i | i in r.items :: i.name.Undefined?)
      && (r.Listing? ==> shown <= r.items)
  {
    LsOptionFlags(args, cwd);
  }

  /** `cd` with no argument or `~` targets the home directory, any other argument is joined
      onto the working directory; `updatePath` is called, with the target, exactly when the
      target is an existing directory. */
  lemma CdMeaning(t: Tree, root: NodeId, args: seq<string>, cwd: string)
    requires Closed(t) && root in t
    ensures var (o, p) := CdCommand(t, root, args, cwd);
      var target := CdTarget(args, cwd);
      var res := Resolve(t, root, target, Nil);
      && (|args| == 0 || args[0] == "~" ==> target == HomeDirectory)
      && (|args| > 0 && args[0] != "~" ==> target == CommandParser.ResolvePath(args[0], cwd))
      && (p.Some? <==> res.Found? && t[res.node].kind == Directory)
      && (p.Some? ==> p == Some(target) && o == Done)
      && (!res.Found? ==> o == Failed("Directory not found: " + target))
      && (res.Found? && t[res.node].kind != Directory ==> o == Failed("Not a directory: " + target))
  {
  }

  /** The path `rm` deletes is its last argument that is not an option; `-r` is read but
      changes nothing. */
  lemma {:induction false} RmLastOperand(args: seq<string>, j: int)
    requires LastOperandAt(args, j)
    ensures RmScan(args).pathArg == args[j]
    decreases |args|
  {
    if j < |args| - 1 {
      var init := args[..|args| - 1];
      assert init[j] == args[j];
      assert LastOperandAt(init, j) by {
        forall k | j < k < |init| ensures IsOption(init[k]) {
          assert init[k] == args[k];
        }
      }
      RmLastOperand(init, j);
    }
  }

  lemma {:induction false} RmOptionsOnly(args: seq<string>)
    requires NoOperand(args)
    ensures RmScan(args).pathArg == ""
    decreases |args|
  {
    if |args| > 0 {
      var init := args[..|args| - 1];
      assert NoOperand(init) by {
        forall k | 0 <= k < |init| ensures IsOption(init[k]) {
          assert init[k] == args[k];
        }
      }
      RmOptionsOnly(init);
    }
  }

  /** `rm` deletes its last non-option argument, whatever options surround it, and with
      options alone reports a missing file operand without touching the file system. */
  lemma RmMeaning(t: Tree, root: NodeId, args: seq<string>, cwd: string, clock: nat, j: int)
    requires Closed(t) && root in t
    requires |args| > 0 && (NoOperand(args) || (LastOperandAt(args, j) && args[j] != ""))
    ensures NoOperand(args) ==> RmCommand(t, root, args, cwd, clock) == Effect(Failed(RmNoFile), t, clock, None)
    ensures LastOperandAt(args, j) ==>
      var abs := AbsolutePath(args[j], cwd);
      RmCommand(t, root, args, cwd, clock) == Effect(Fs(DeleteOutcome(t, root, abs)), DeleteTree(t, root, abs), clock, None)
  {
    if NoOperand(args) {
      RmOptionsOnly(args);
    } else {
      RmLastOperand(args, j);
    }
  }

  /** `touch` is `writeFile` of empty content: an existing file is emptied in place, nothing
      else changes, and `cat` then reads nothing; a directory is not overwritten. */
  lemma TouchEmpties(t: Tree, root: NodeId, path: map<NodeId, seq<string>>, args: seq<string>, cwd: string,
                     c: NodeId, clock: nat)
    requires TreeInv(t, root, path) && c !in t && c != Nil && |args| > 0
    ensures var abs := AbsolutePath(args[0], cwd);
      var e := TouchCommand(t, root, args, cwd, c, clock);
      var res := Resolve(t, root, ParentPath(abs), Nil);
      var k := Key(TargetName(abs));
      && e.out == Fs(WriteOutcome(t, root, abs))
      && (e.out == Fs(Ok("File written: " + abs)) && k in t[res.node].children ==>
            var f := t[res.node].children[k];
            && e.nodes.Keys == t.Keys && e.nodes[f].kind == File && e.nodes[f].content == ""
            && (forall n | n in t && n != f :: e.nodes[n] == t[n]))
      && (res.Found? && t[res.node].kind == Directory && k in t[res.node].children
            && t[t[res.node].children[k]].kind == Directory ==>
            e == Effect(Fs(Fail(CannotOverwriteDirectory, "Cannot overwrite directory with file: " + abs)), t, clock, None))
  {
    var abs := AbsolutePath(args[0], cwd);
    if WriteOutcome(t, root, abs).Ok? {
      WriteReplacesOrAdds(t, root, path, abs, "", c, clock + 1);
    }
  }

  /** After a successful `touch` of a path ending in a plain name, the file reads back empty. */
  lemma TouchThenCat(t: Tree, root: NodeId, path: map<NodeId, seq<string>>, args: seq<string>, cwd: string,
                     c: NodeId, clock: nat, q: string, w: string)
    requires TreeInv(t, root, path) && c !in t && c != Nil && |args| > 0
    requires IsSegment(w) && w != "." && w != ".." && AbsolutePath(args[0], cwd) == q + "/" + w
    requires TouchCommand(t, root, args, cwd, c, clock).out.Fs? && TouchCommand(t, root, args, cwd, c, clock).out.result.Ok?
    ensures ReadOutcome(TouchCommand(t, root, args, cwd, c, clock).nodes, root, q + "/" + w) == FileContent("")
  {
    WriteThenRead(t, root, path, q, w, "", c, clock + 1);
  }

  /** Each file command without enough operands fails with its usage message and leaves the
      file system as it was. */
  lemma MissingOperands(t: Tree, root: NodeId, path: map<NodeId, seq<string>>, c: NodeId, clock: nat,
                        args: seq<string>, cwd: string)
    requires TreeInv(t, root, path)
    ensures |args| == 0 ==>
      && Execute(t, root, path, c, clock, "mkdir", args, cwd) == Effect(Failed(MkdirUsage), t, clock, None)
      && Execute(t, root, path, c, clock, "touch", args, cwd) == Effect(Failed(TouchUsage), t, clock, None)
      && Execute(t, root, path, c, clock, "cat", args, cwd) == Effect(Failed(CatUsage), t, clock, None)
      && Execute(t, root, path, c, clock, "edit", args, cwd) == Effect(Failed(EditUsage), t, clock, None)
      && Execute(t, root, path, c, clock, "rm", args, cwd) == Effect(Failed(RmUsage), t, clock, None)
    ensures |args| < 2 ==>
      && Execute(t, root, path, c, clock, "mv", args, cwd) == Effect(Failed(MvUsage), t, clock, None)
      && Execute(t, root, path, c, clock, "cp", args, cwd) == Effect(Failed(CpUsage), t, clock, None)
  {
  }

  /** An unknown command fails with "Command not found", the empty command succeeds, a name
      inherited from `Object.prototype` reaches that built-in, and none of them changes
      anything or calls `updatePath`. */
  lemma ExecuteUnknown(t: Tree, root: NodeId, path: map<NodeId, seq<string>>, c: NodeId, clock: nat,
                       command: string, args: seq<string>, cwd: string)
    requires TreeInv(t, root, path) && command !in Handlers
    ensures Execute(t, root, path, c, clock, command, args, cwd)
         == Effect(if command in ObjectMembers then Builtin(command)
                   else if command == "" then Done
                   else Failed(NotFoundMessage(command)), t, clock, None)
  {
  }

  /** `help` has an answer for each listed topic, throws reading the examples of an entry
      inherited from `Object.prototype`, and otherwise says that no help is available. */
  lemma HelpMeaning(args: seq<string>)
    ensures HelpCommand(args) == Done <==> |args| == 0 || args[0] in HelpTopics
    ensures HelpCommand(args).Threw? <==> |args| > 0 && args[0] in ObjectMembers
    ensures HelpCommand(args).Failed? <==>
              |args| > 0 && args[0] !in HelpTopics && args[0] !in ObjectMembers
  {
  }

  /** Only `cd` calls `updatePath`, and the commands that only print change nothing. */
  lemma OnlyCdMovesAndWritersWrite(t: Tree, root: NodeId, path: map<NodeId, seq<string>>, c: NodeId, clock: nat,
                                   command: string, args: seq<string>, cwd: string)
    requires TreeInv(t, root, path) && (command == "mv" ==> MvAllowed(t, root, path, args, cwd))
    ensures var e := Execute(t, root, path, c, clock, command, args, cwd);
      && (command != "cd" ==> e.newPath == None)
      && (command !in {"mkdir", "touch", "rm", "mv", "cp"} ==> e.nodes == t && e.clock == clock)
  {
  }
}
