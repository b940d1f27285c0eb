# IrisOS core, modelled in Dafny

IrisOS is a text-mode "operating system" that runs in a Node.js terminal. It has:

- an in-memory file system;
- a shell that parses a typed line into a command and its arguments and runs it;
- a simulated web browser;
- a desktop of windows;
- a few terminal formatting helpers.

This project models the core of that program and proves properties of the model. It consists of these modules:

- **`FileSystem`** (`filesystem.dfy`) models the tree of `FSNode`s, which `FileSystem` objects update in place.
  - Nodes are kept in an object store that maps each node identity to its record. The `FileSystem` class holds this store, the identity the next node will get, a counter standing for the clock, and a ghost map. The ghost map gives every node its key path from the root and witnesses that the parent links form a tree.
  - Every operation is proved against a specification function of the old store:
    - `resolvePath` and `getNodePath`, with their character loops;
    - `mkdir`, `writeFile`, `readFile`, `listDirectory`, `delete`, `move` and `copy`.
  - Lemmas state what each successful operation does to the tree, and that the tree invariant is kept.
  - Lemmas also cover the path arithmetic:
    - `..` at the root;
    - `.` segments;
    - trailing slashes;
    - the single `//` collapse;
    - the `getNodePath`/`resolvePath` round trip, and the case (a directory named `..`) where it fails.
- **`CommandParser`** (`command_parser.dfy`) holds the character-by-character tokenizer of `parseCommand`, with its quotes and backslash escapes, and the textual `resolvePath`.
- **`Commands`** (`commands.dfy`) holds `executeCommand` and the file-system commands: `ls`, `cd`, `mkdir`, `touch`, `cat`, `edit`, `rm`, `mv` and `cp`.
  - Each handler returns its result and the new file system as an `Effect`.
  - The `updatePath` callback of the context becomes the `newPath` field of the effect.
- **`Browser`** (`browser.dfy`) models the browser state, with its history and bookmarks.
  - It covers address normalisation, the lookup in the table of simulated sites, back and forward, bookmarking, and the command dispatcher.
  - The invariant is that the history index points at the current page and every visited or bookmarked page is a known site. It is proved to be kept by every command.
- **`Desktop`** (`desktop.dfy`) models the windows (a class whose methods change their frame), the desktop configuration, application lookup, the command dispatcher, themes and the taskbar contents.
- **`Terminal`** (`terminal.dfy`) holds `colorText`, `formatPrompt` and `formatTable`.
  - The regular-expression replacement that removes colour codes is modelled and proved to show coloured text as the text itself.
  - The table is proved aligned on screen: the header, the separator and every data row take the same visible width.
  - The table's lines are proved to split back into the header, the separator and the rows.
- **`Text`** (`text.dfy`) provides the JavaScript string operations the core uses (`split`, `join`, `trim`, `indexOf`, `padEnd`, `repeat`, `parseInt`, and `toLowerCase` for the characters whose lower case is an ASCII letter), each with the properties the other modules need.

## Model

| member | source | states |
|---|---|---|
| FileSystem.FileSystem.constructor | lib/filesystem.js:23-37 | the initial tree is the root holding home, bin, etc and README.txt (with the welcome text), home holding user, and the tree invariant holds |
| FileSystem.FileSystem.Attach | lib/filesystem.js:7-18 | a new node gets a fresh identity and the next timestamp, is entered under its name in the parent's children, and the tree invariant is kept |
| FileSystem.FileSystem.Replace | lib/filesystem.js:157-158 | overwriting a file replaces only that node's content and modification time, keeping the tree invariant |
| FileSystem.FileSystem.Relocate | lib/filesystem.js:277-287 | the updates of a move (drop the old entry, rename, re-parent, add the new entry, stamp the time) produce the relinked tree and keep the invariant |
| FileSystem.FileSystem.ResolvePath | lib/filesystem.js:46-87 | the segment loop reaches exactly the node `Resolve` defines: the root for "/", `.` stays, `..` climbs except at the root, and a missing child stops the walk with the rest of the path |
| FileSystem.FileSystem.GetNodePath | lib/filesystem.js:92-105 | climbing the parent links yields "/" followed by the names from the root to the node, joined by "/" |
| FileSystem.FileSystem.Mkdir | lib/filesystem.js:110-131 | the result is that of `MkdirOutcome` (parent not found, parent not a directory, already exists, or created); only on success is one empty directory added, with one clock tick |
| FileSystem.FileSystem.WriteFile | lib/filesystem.js:136-165 | the result is that of `WriteOutcome`: a missing or non-directory parent fails, an existing directory cannot be overwritten, an existing file gets the new content, otherwise a new file is added |
| FileSystem.FileSystem.ReadFile | lib/filesystem.js:170-183 | the result is the file's content, or "file not found", or "not a file" for a directory; nothing changes |
| FileSystem.FileSystem.ListDirectory | lib/filesystem.js:188-207 | the result lists one item per child, with name, kind, size of files and modification time, or fails when the path is missing or a file |
| FileSystem.FileSystem.Delete | lib/filesystem.js:212-241 | the result is that of `DeleteOutcome` (the root cannot be deleted, not found, directory not empty, no parent, deleted) and the tree is `DeleteTree` of the old one |
| FileSystem.FileSystem.Move | lib/filesystem.js:246-290 | the result is that of `MoveOutcome` (source or destination parent missing, parent not a directory, destination exists, moved) and the tree is the old one with the node relinked |
| FileSystem.FileSystem.Copy | lib/filesystem.js:295-345 | the result is that of `CopyOutcome`; on success one new node of the source's kind is added under the destination parent |
| FileSystem.ParentStep | lib/filesystem.js:7-18 | every node but the root has a parent that lists it under its name, and its key path is the parent's followed by its own name |
| FileSystem.Walk | lib/filesystem.js:62-84 | walking segments from a node always ends at a node of the tree |
| FileSystem.TargetName | lib/filesystem.js:112 | the name taken from the last non-empty segment is always a valid node name (or the `undefined` name when there is none) |
| FileSystem.AddLeafKeepsInv | lib/filesystem.js:129 | adding a childless node under a directory, with an unused name and a fresh identity, keeps the tree invariant |
| FileSystem.RemoveLeafKeepsInv | lib/filesystem.js:235-237 | removing a childless node other than the root from its parent keeps the tree invariant |
| FileSystem.RelinkKeepsInv | lib/filesystem.js:277-287 | re-parenting a node that is not the root into a directory outside its own subtree keeps the tree invariant, with every path below the node moved along |
| FileSystem.RelinkNodes | lib/filesystem.js:277-287 | after a relink the node has the new name and parent, the old parent lacks the old entry, the new parent has the new entry, every other node keeps its name, parent and kind, and only those two directories' children change |
| FileSystem.WalkConcat | lib/filesystem.js:62-84 | walking `a` to a found node and then `b` is walking `a + b` |
| FileSystem.WalkMissing | lib/filesystem.js:74-80 | a failed walk stops at the first segment that is no child of the node reached, and reports the rest of the path from that segment |
| FileSystem.ClimbAtTop | lib/filesystem.js:66-70 | at the root any number of ".." segments change nothing |
| FileSystem.DotsChangeNothing | lib/filesystem.js:64-65 | removing the "." segments reaches the same node, found or not alike |
| FileSystem.WalkToNode | lib/filesystem.js:62-84 | walking from the root along a node's keys reaches that node when no key is "." or ".." |
| FileSystem.RoundTrip | lib/filesystem.js:92-105 | resolving the path `getNodePath` gives for a node reaches that node when every name on the way is a plain segment |
| FileSystem.DotDotEscapes | lib/filesystem.js:92-105 | a directory named ".." is not reached again by resolving its own `getNodePath` |
| FileSystem.SplitTarget | lib/filesystem.js:112-113 | for `q/w` the parent path is `q` (or "/" when `q` is empty) and the target name is `w` |
| FileSystem.TrailingSlash | lib/filesystem.js:112-113 | a trailing "/" leaves the parent path as the path itself and the target name as that of the path without it |
| FileSystem.OnlyFirstSlashesCollapse | lib/filesystem.js:111-113 | a relative path joined onto "/" gains exactly one leading "/" |
| FileSystem.ResolveParentPath | lib/filesystem.js:46-87 | resolving a parent path is walking its segments from the root |
| FileSystem.ResolveChild | lib/filesystem.js:46-87 | resolving `q/w` is resolving its parent path and then looking `w` up there |
| FileSystem.ResolveBelowFile | lib/filesystem.js:74-80 | nothing below a file can be found: the walk stops at the file with the rest of the path |
| FileSystem.WalkExtends | lib/filesystem.js:62-84 | a walk that succeeds goes on succeeding, to the same node, after nodes are added |
| FileSystem.MkdirAddsDirectory | lib/filesystem.js:110-131 | a successful `mkdir` adds exactly one empty directory under the parent, changes no other node, keeps the invariant, and repeating it fails with "already exists" |
| FileSystem.WriteThenRead | lib/filesystem.js:136-183 | after a successful `writeFile` of a plain name, `readFile` of the same path returns the content written |
| FileSystem.WriteReplacesOrAdds | lib/filesystem.js:151-162 | `writeFile` on an existing file replaces only its content and time; otherwise it adds one file holding the content; the invariant is kept either way |
| FileSystem.ReplaceKeepsInv | lib/filesystem.js:157-158 | replacing one node's content and time keeps the tree invariant |
| FileSystem.DeleteRemovesLeaf | lib/filesystem.js:212-241 | a successful `delete` removes a childless node that is not the root, even when the path reaches it through "..", and its entry in the parent; the invariant is kept |
| FileSystem.CopyIsShallow | lib/filesystem.js:295-345 | a successful `copy` adds one node of the source's kind: a file with the same content, or an empty directory; the source is unchanged and the invariant kept |
| FileSystem.MoveRelinks | lib/filesystem.js:246-290 | a successful `move` renames the node, hangs it under the destination parent, drops its old entry, keeps its content and children, and keeps the invariant |
| FileSystem.SeedValid | lib/filesystem.js:23-37 | the initial tree satisfies the tree invariant |
| CommandParser.Parse | lib/commandParser.js:59-67 | no argument is empty, and the empty command has no arguments |
| CommandParser.ParseCommand | lib/commandParser.js:11-68 | the character loop over the trimmed line produces the command and arguments `Parse` defines |
| CommandParser.ScanNonEmpty | lib/commandParser.js:47-53 | the tokenizer never records an empty argument |
| CommandParser.ParseBlank | lib/commandParser.js:13-15 | a line of whitespace only, or no line, is the empty command with no arguments |
| CommandParser.ScanConcat | lib/commandParser.js:24-57 | scanning `a` and then `b` is scanning `a + b` |
| CommandParser.PlainScan | lib/commandParser.js:47-56 | without quotes or backslashes the tokenizer splits on single spaces and drops the empty pieces |
| CommandParser.PlainTokens | lib/commandParser.js:17-62 | on such a line the tokens are the non-empty pieces of the trimmed line split on spaces |
| CommandParser.QuotedRun | lib/commandParser.js:41-53 | inside quotes, spaces are kept in the pending argument |
| CommandParser.Quoted | lib/commandParser.js:41-44 | a quoted run adds its characters, spaces included, to one argument, whichever quote characters open and close it |
| CommandParser.EscapedRun | lib/commandParser.js:28-38 | a backslash makes the next character literal, whether it is a quote, a space or a backslash |
| CommandParser.TrailingBackslash | lib/commandParser.js:35-38 | a lone backslash at the end of the line is dropped |
| CommandParser.ParseSplit | lib/commandParser.js:64-67 | the command is the first token and the arguments are the remaining tokens in order |
| CommandParser.ResolvePathRules | lib/commandParser.js:77-101 | an absolute argument is kept, "." is the working directory, ".." drops its last segment (staying at "/"), anything else is appended after exactly one "/", which is added only when the working directory does not already end in "/" |
| Commands.HandleLs | lib/commands.js:285-340 | the outcome and the shown entries are those `LsCommand` defines |
| Commands.HandleCd | lib/commands.js:345-367 | the outcome and the path handed to `updatePath` are those `CdCommand` defines |
| Commands.HandleMkdir | lib/commands.js:372-378 | with no operand the usage message, otherwise `mkdir` of the first argument against the working directory |
| Commands.HandleTouch | lib/commands.js:383-389 | with no operand the usage message, otherwise `writeFile` of empty content |
| Commands.HandleCat | lib/commands.js:394-406 | with no operand the usage message, otherwise the file's content or the read failure |
| Commands.HandleEdit | lib/commands.js:412-431 | with no operand the usage message, otherwise the editor starts from the file's content, or from nothing when there is no such file |
| Commands.HandleRm | lib/commands.js:479-501 | with no operand the usage message, otherwise `delete` of the last non-option argument |
| Commands.HandleMv | lib/commands.js:506-515 | with fewer than two operands the usage message, otherwise `move` of the first onto the second |
| Commands.HandleCp | lib/commands.js:520-529 | with fewer than two operands the usage message, otherwise `copy` of the first onto the second |
| Commands.ExecuteCommand | lib/commands.js:200-230 | a known command runs its handler; a name inherited from `Object.prototype` reaches that built-in with the tree and path unchanged; another non-empty one fails with "Command not found"; the result, tree and new path are `Execute`'s |
| Commands.LsOptionFlags | lib/commands.js:291-299 | hidden names are shown exactly when some option contains 'a', the long format exactly when one contains 'l', and without a path the working directory is listed |
| Commands.LsLastOperand | lib/commands.js:291-299 | the last path argument of `ls` is the one listed |
| Commands.LsShows | lib/commands.js:301-311 | a failed listing is returned as is; otherwise an entry is shown exactly when hidden names are asked for or its name does not start with '.', and a nameless entry makes the filter throw |
| Commands.CdMeaning | lib/commands.js:345-367 | no argument or "~" goes home, another is joined onto the working directory, and `updatePath` is called with the target exactly when it is an existing directory |
| Commands.RmLastOperand | lib/commands.js:488-494 | the path `rm` deletes is its last argument that is not an option |
| Commands.RmOptionsOnly | lib/commands.js:488-498 | with options only, no path is chosen |
| Commands.RmMeaning | lib/commands.js:479-501 | `rm` deletes its last non-option argument whatever options surround it, and with options alone fails with "missing file operand", leaving the tree as it was |
| Commands.TouchEmpties | lib/commands.js:383-389 | `touch` of an existing file empties it in place and changes no other node; `touch` of a directory fails and changes nothing |
| Commands.TouchThenCat | lib/commands.js:383-406 | after a successful `touch` of a plain name the file reads back empty |
| Commands.MissingOperands | lib/commands.js:372-529 | each file command without enough operands fails with its usage message and leaves the file system as it was |
| Commands.ExecuteUnknown | lib/commands.js:221-229 | an unknown command fails with "Command not found", an inherited `Object.prototype` name reaches its built-in, the empty command succeeds, and none changes anything |
| Commands.HelpMeaning | lib/commands.js:251-279 | `help` succeeds with no argument or a listed topic, throws reading the missing examples of an entry inherited from `Object.prototype`, and otherwise says no help is available |
| Commands.OnlyCdMovesAndWritersWrite | lib/commands.js:200-230 | only `cd` calls `updatePath`, and only mkdir, touch, rm, mv and cp change the file system |
| Browser.TitleOf | lib/browser.js:418-421 | a page has a title exactly when its address is a key of the simulated sites, and that title is the site's own |
| Browser.FirstContainedMeaning | lib/browser.js:358-361 | the lookup returns the first site, in key order, whose address occurs in the normalised address, and nothing only when no site's address occurs there |
| Browser.BrowserState.constructor | lib/browser.js:8-15 | the browser starts at about:home with that page as its only history entry and no bookmarks |
| Browser.BrowserState.NavigateTo | lib/browser.js:332-388 | the state becomes `NavigateView` of the old one, and the invariant is kept |
| Browser.BrowserState.NavigateBack | lib/browser.js:391-399 | the state becomes `BackView` of the old one, and the invariant is kept |
| Browser.BrowserState.NavigateForward | lib/browser.js:402-410 | the state becomes `ForwardView` of the old one, and the invariant is kept |
| Browser.BrowserState.AddBookmark | lib/browser.js:418-441 | the state becomes `BookmarkView` of the old one, and the invariant is kept |
| Browser.BrowserState.HandleBrowserCommand | lib/browser.js:279-329 | the state becomes `CommandView` of the old one: the lower-cased first word picks the action and the rest of the words are its argument |
| Browser.DestinationKnown | lib/browser.js:357-384 | every navigation lands on a known site, the 404 page included |
| Browser.NavigateKeepsInv | lib/browser.js:332-388 | navigating drops the pages after the current one, appends the destination, makes it current and keeps the bookmarks; an empty address changes nothing |
| Browser.VisitKeepsInv | lib/browser.js:362-369 | appending a known destination after the current page keeps the invariant |
| Browser.BackForwardKeepInv | lib/browser.js:391-410 | back and forward keep the history and bookmarks, and move the index by one only when there is a page in that direction |
| Browser.BackForwardRoundTrip | lib/browser.js:391-410 | back then forward, or forward then back, returns to the same state when the first step moved |
| Browser.BookmarkKeepsInv | lib/browser.js:418-441 | a bookmark is added only for a known page not yet bookmarked, so no address is bookmarked twice, and nothing else changes |
| Browser.NormalizeWithoutProtocol | lib/browser.js:339-355 | without "://", an address with a dot or starting with "about:" is kept, another becomes its `about:` page, except that a name starting with "//" loses that prefix again |
| Browser.HttpPrefixStripped | lib/browser.js:344-355 | "http://" put in front of an address without "://" is removed again by the protocol split |
| Browser.AboutPrefixAddsNoProtocol | lib/browser.js:347-352 | "about:" put in front of an address without "://" and not starting with "//" introduces no "://" |
| Browser.AboutOccurrence | lib/browser.js:347-352 | "://" occurs in "about:" + u only where it occurs in u, or right after "about" when u starts with "//" |
| Browser.KelvinSignBack | lib/browser.js:279-289 | the command word is lower-cased as `toLowerCase` does: "BAC" followed by the Kelvin sign U+212A goes back |
| Browser.UnknownInput | lib/browser.js:318-324 | unrecognised input navigates to itself when it contains a dot or starts with "about:", and otherwise changes nothing |
| Browser.CommandKeepsInv | lib/browser.js:279-329 | every command keeps the invariant |
| Browser.DispatchKeepsInv | lib/browser.js:284-325 | every branch of the dispatcher keeps the invariant |
| Desktop.IconFrom | lib/desktop.js:57-60 | the glyph is that of an icon launching the application, or the generic one when there is none |
| Desktop.FindAppFrom | lib/desktop.js:918-925 | the application found is named by the name asked for, ignoring case, and none earlier is |
| Desktop.FindAppIgnoresCase | lib/desktop.js:918-925 | looking an application up does not depend on the case of the name asked for |
| Desktop.EmptyNameFindsNothing | lib/desktop.js:918-925 | an empty name opens nothing |
| Desktop.MinimizeOnlySetsFlag | lib/desktop.js:66-68 | minimizing sets the flag and changes nothing else, and a second time changes nothing |
| Desktop.MaximizeToggles | lib/desktop.js:70-81 | maximizing flips the flag, fills 100 by 30 after saving the size, and restores a saved size when turned off |
| Desktop.MaximizeTwice | lib/desktop.js:70-81 | two toggles bring a window of non-zero size back to its size, changing only the saved size |
| Desktop.ResizeOnlyWhenResizable | lib/desktop.js:92-97 | resizing changes exactly the size, and only when the window is resizable |
| Desktop.Without | lib/desktop.js:83-90 | every window kept is an open one whose id is not the closed one, and every open window with another id is kept |
| Desktop.WithoutSnoc | lib/desktop.js:84 | `filter` keeps the order: nothing filtered gives nothing, and a window added at the end stays at the end exactly when its id differs |
| Desktop.FindWindow | lib/desktop.js:939-948 | the window found is the first open window carrying the active id, as `find` returns it, and none is found only when no open window has it |
| Desktop.OpenAppendsAndFocuses | lib/desktop.js:918-935 | opening appends exactly the new window and makes it the active one |
| Desktop.CloseMeaning | lib/desktop.js:83-90 | closing removes exactly the windows with that id, and an active window that is closed passes the focus to the last window left, or to none |
| Desktop.SwitchMeaning | lib/desktop.js:972-979 | switching to an index in range activates that window; any other index changes nothing |
| Desktop.PanelsExclusive | lib/desktop.js:748-772 | whichever panel is toggled, the start menu and the notifications panel are never open together |
| Desktop.ThemeOnlyKnown | lib/desktop.js:888-901 | only dark, light and blue are ever chosen; any other name keeps the theme |
| Desktop.ThemeFallback | lib/desktop.js:1023-1049 | an unknown theme is drawn in the dark theme's colours, and the three themes differ |
| Desktop.Window.constructor | lib/desktop.js:41-55 | a new window has the given title, application and size, its icon, and is neither minimized nor maximized |
| Desktop.Window.Focus | lib/desktop.js:62-64 | the desktop's active window becomes this one and nothing else changes |
| Desktop.Window.Minimize | lib/desktop.js:66-68 | the frame becomes the minimized frame of the old one |
| Desktop.Window.Maximize | lib/desktop.js:70-81 | the frame becomes the toggled frame of the old one |
| Desktop.Window.Close | lib/desktop.js:83-90 | the window leaves the desktop's list, and the focus moves as `CloseConfig` says |
| Desktop.Window.Resize | lib/desktop.js:92-97 | the size changes only when the window is resizable |
| Desktop.Window.Move | lib/desktop.js:99-102 | the position becomes the one given and nothing else changes |
| Desktop.KelvinSignTheme | lib/desktop.js:888-893 | theme names are lower-cased as `toLowerCase` does: `theme DAR` followed by the Kelvin sign selects the dark theme |
| Desktop.Words | lib/desktop.js:743-745 | the words of a line are its trimmed text split on single spaces; there is always a first word |
| Desktop.StepKeepsInv | lib/desktop.js:742-916 | every desktop command keeps the active id pointing at an open window and the two panels exclusive |
| Desktop.SwitchCountsFromOne | lib/desktop.js:816-818 | `switch n` activates the n-th open window counting from one; a number out of range or no number changes nothing |
| Desktop.OtherCommandsChangeNothing | lib/desktop.js:742-916 | any first word other than the state-changing commands, and `theme` without a name, changes nothing |
| Desktop.Desktop.constructor | lib/desktop.js:391-400 | the desktop starts with the configured theme (dark when none); the module-level `desktopConfig` (lib/desktop.js lines 10-23) gives no windows, no active window and both panels closed |
| Desktop.Desktop.OpenApplication | lib/desktop.js:918-935 | a window is created exactly when the name finds an application; it is appended and made active, otherwise nothing changes |
| Desktop.Desktop.CloseActiveWindow | lib/desktop.js:939-948 | the active window, if any, is closed as `Window.Close` does |
| Desktop.Desktop.MinimizeActiveWindow | lib/desktop.js:950-959 | only the active window's frame changes, to the minimized frame |
| Desktop.Desktop.MaximizeActiveWindow | lib/desktop.js:961-970 | only the active window's frame changes, to the toggled frame |
| Desktop.Desktop.SwitchWindow | lib/desktop.js:972-979 | the configuration becomes `SwitchConfig` of the old one |
| Desktop.Desktop.OpenCommand | lib/desktop.js:856-886 | opening an application by a shortcut command, closing the start menu when the command says so |
| Desktop.Desktop.Perform | lib/desktop.js:742-916 | one command's effect: the configuration becomes `Step` of the old one, and only the target window's frame changes |
| Desktop.Desktop.HandleDesktopCommand | lib/desktop.js:742-916 | the lower-cased first word selects the action, ignoring case; the configuration becomes `Step` of the old one |
| Desktop.AppsOf | lib/desktop.js:536-537 | the applications of the open windows, in order |
| Desktop.Dedup | lib/desktop.js:536-539 | the distinct elements, each exactly once, and no others |
| Desktop.DedupPrefix | lib/desktop.js:536-539 | deduplicating a longer list only extends the result |
| Desktop.TaskbarContents | lib/desktop.js:536-539 | the taskbar shows at most eight distinct applications, each open or pinned, the open ones first |
| Terminal.ColorDigits | lib/terminal.js:26-36 | exactly the nine colour names have a code, and each code is a run of digits |
| Terminal.EscapeUnique | lib/terminal.js:73 | a colour sequence at a position is the one match the pattern finds there |
| Terminal.StripAppend | lib/terminal.js:73 | removing colour codes distributes over a concatenation that splits no colour sequence |
| Terminal.StripPlain | lib/terminal.js:102 | text without an escape bracket shows as it is |
| Terminal.ColorTextVisible | lib/terminal.js:25-39 | coloured text shows exactly as the text itself |
| Terminal.UnknownColor | lib/terminal.js:38 | a colour name without a code adds no prefix, but the reset code is still appended |
| Terminal.ColorTextEnd | lib/terminal.js:38 | a coloured string ends in the `m` of the reset code |
| Terminal.PromptVisible | lib/terminal.js:10-16 | the prompt shows as `user@irisos:<path>$ ` |
| Terminal.CellTextMeaning | lib/terminal.js:71 | a cell is the value of the first property named after its column, or empty when there is none or its value is undefined |
| Terminal.WidthOver | lib/terminal.js:65-76 | a column is at least as wide as its header and as every cell's visible text |
| Terminal.WidthAttained | lib/terminal.js:65-76 | a column is exactly as wide as its header or one of its cells |
| Terminal.Table | lib/terminal.js:54-57 | the table is empty exactly when there are no rows |
| Terminal.MeasureColumns | lib/terminal.js:65-76 | the loop computes the column widths `Widths` defines |
| Terminal.FormatHeader | lib/terminal.js:82-84 | the header loop yields each column name padded to width + 2, in cyan |
| Terminal.FormatSeparator | lib/terminal.js:89-91 | the separator loop yields width + 2 dashes per column |
| Terminal.FormatRow | lib/terminal.js:97-108 | the cell loop of one row yields that row's text |
| Terminal.FormatCell | lib/terminal.js:99-107 | a coloured cell is padded by its visible length plus two spaces, a plain one by `padEnd` to width + 2 |
| Terminal.FormatTable | lib/terminal.js:54-113 | the function builds the string `Table` defines |
| Terminal.FormatRows | lib/terminal.js:96-110 | the row loop yields each row's text followed by a line break |
| Terminal.SeparatorDashes | lib/terminal.js:89-91 | the separator is all dashes, as long as a line |
| Terminal.CellVisible | lib/terminal.js:99-107 | a data cell, coloured or not, shows as its visible text padded to width + 2 |
| Terminal.RowVisible | lib/terminal.js:96-110 | a data line shows as its cells' visible texts padded to their columns, so it is as wide as a line |
| Terminal.HeaderVisible | lib/terminal.js:82-84 | column names without colour codes show padded to their widths, so the header is as wide as a line |
| Terminal.TableAligned | lib/terminal.js:54-113 | the header, the separator and every data row take the same width on screen |
| Terminal.MissingCellBlank | lib/terminal.js:98-106 | a missing property or an undefined value renders as blanks of the column's width |
| Terminal.TableLines | lib/terminal.js:54-113 | with no line break in the names or values, the table splits into the header, the separator and one line per row, and ends in a line break |

## Left out

- The file system's nodes are records in an object store keyed by node identity, not heap objects. Aliasing is kept, because identities are compared as `===` compares objects. JavaScript's garbage collection has no counterpart.
- `FSNode.children` is a map: keys inherited from `Object.prototype` (such as `children['constructor']`) are not modelled.
- Desktop.ThemeFallback: a theme name inherited from `Object.prototype` (such as `constructor` or `toString`) is not modelled. The source's `themes[theme] || themes.dark` returns that inherited member, whose palette entries are all undefined, so windows would be drawn without colour codes. The model draws them in the dark palette. Such a name can only come from the `desktopTheme` of the configuration file, whose loading is not part of this model.
- Terminal.ColorDigits: a colour name inherited from `Object.prototype` is not modelled. `colors[color] || ''` then yields that member's text, for example the source text of `toString`. The model gives no code. The program's own `colorText` callers pass only the nine names, or the undefined entry of an inherited theme, which both the source and the model render with no prefix.
- Terminal.UnknownColor: holds only for names not inherited from `Object.prototype`, for the reason given for `ColorDigits`.
- Terminal.ColorTextVisible: for a colour name inherited from `Object.prototype`, the source's visible prefix is that member's text. The model's result shows just the text. See `ColorDigits`.
- `FSNode`'s `createdAt` and `permissions` fields are left out. The core sets them but never reads them. Only `modifiedAt` is kept, as the clock counter.
- Commands.ExecuteCommand: a command named after a property inherited from `Object.prototype` (`toString`, `constructor`, `__proto__`, ...) is modelled as the outcome `Builtin(name)`, with the tree and the path unchanged. What that built-in returns, or the `TypeError` some of them throw (`__proto__`, `__defineGetter__`, `__defineSetter__`), is not modelled.
- Browser.BrowserState.HandleBrowserCommand: `toLowerCase` is modelled for the ASCII capitals and the Kelvin sign U+212A, the only characters that lower-case to an ASCII letter alone. Every other character is kept as it is, so a string with other capitals (or U+0130, which lower-cases to 'i' and a combining dot) lowers differently from the source. The lowered word is only compared with ASCII command words, so those comparisons come out as in the source.
- Desktop.Desktop.HandleDesktopCommand: the same partial `toLowerCase` as `HandleBrowserCommand`. The lowered command word, theme name and application name are only compared with ASCII words.
- `listDirectory` returns a set of items: the order of `Object.values` is not modelled. The `ls` output text (tabs, colours, the `<empty directory>` line and the detailed table) is printed to the console and is not modelled; `ls` is modelled as the set of entries it shows.
- `new Date()` becomes a counter that ticks once per timestamp; `toLocaleString` is left out.
- FileSystem.FileSystem.Move: requires the move to keep the tree a tree, excluding moving the root or a directory into its own subtree. The source has no such check, and what such a move does to its object graph is not modelled.
- Commands.HandleMv: inherits the same restriction as `Move`, through `MvAllowed`.
- `help`, `pwd`, `echo`, `clear`, `date`, `whoami` and `sysinfo` only print to the console or clear it: they are modelled as doing nothing to the file system and the path, and their printed text is left out. The per-command help texts are left out.
- `handleEdit`'s interactive loop (reading lines from standard input until `:wq` or `:q`) is I/O and is left out; the model covers the part before the loop.
- `ls` on a directory holding an entry without a name (the `undefined` node `mkdir /` creates) throws in the source; the model returns that failure as an outcome.
- The browser's rendering (`renderBrowser`, `showBrowserHelp`, the page contents, `updateHistoryPage` and `updateBookmarksPage`) and its console messages are output only and left out. `refresh` and `help` change no state.
- The bookmark's `dateAdded` timestamp is left out.
- The desktop's rendering (windows, taskbar text, start menu, notifications panel, the application contents) and `startDesktop`'s input loop are I/O and left out. The taskbar is modelled by the list of applications it shows.
- Window ids come from the caller: the source derives them from `Date.now()`.
- The `terminal` command, which leaves the desktop, and `power`, which exits the process, change no desktop state in the model.
- `clearScreen` and `printWelcome` write to the console and are left out.
- `formatTable` takes its rows as a list of key/value cells in key order. The model leaves out `String()` of values that are not strings, the `Object.keys` order of integer-like keys, and properties inherited from prototypes. When a key appears twice in a row, the first occurrence wins.
- Lengths are counted in characters, not UTF-16 code units.
- Terminal.HeaderVisible: proved only for column names without colour codes. A column name holding a colour code is padded by its full length and so misaligns the header, and the source does not handle that.
