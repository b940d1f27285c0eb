/** The text-mode desktop of lib/desktop.js: its windows and which of them is active, the start
    menu and notification panels, the theme and its colours, and the taskbar's application list.
    Window ids come from the clock in the source; here the caller supplies them. */
module Desktop {
  import opened Text

  /** A desktop icon: the label shown, the application it launches and its glyph. */
  datatype Icon = Icon(name: string, command: string, glyph: string)

  const DefaultIcons: seq<Icon> := [
    Icon("Internet", "browser", "\U{1F310}"),
    Icon("Explorer", "files", "\U{1F4C1}"),
    Icon("Terminal", "terminal", "\U{2328}\U{FE0F}"),
    Icon("Settings", "settings", "\U{2699}\U{FE0F}"),
    Icon("Store", "store", "\U{1F6D2}"),
    Icon("Photos", "photos", "\U{1F5BC}\U{FE0F}"),
    Icon("Mail", "mail", "\U{2709}\U{FE0F}"),
    Icon("Calendar", "calendar", "\U{1F4C5}"),
    Icon("Calculator", "calculator", "\U{1F9EE}"),
    Icon("Notepad", "notepad", "\U{1F4DD}")
  ]

  /** The glyph of an application that has no desktop icon. */
  const GenericGlyph := "\U{1F4C4}"

  /** The glyph of the first icon of `icons` from position `i` on that launches `app`, or the
      generic glyph. */
  function IconFrom(icons: seq<Icon>, app: string, i: nat): (glyph: string)
    requires i <= |icons|
    ensures (forall k :: i <= k < |icons| ==> icons[k].command != app) ==> glyph == GenericGlyph
    ensures forall k :: (i <= k < |icons| && icons[k].command == app &&
                         forall j :: i <= j < k ==> icons[j].command != app) ==> glyph == icons[k].glyph
    decreases |icons| - i
  {
    if i == |icons| then GenericGlyph
    else if icons[i].command == app then icons[i].glyph
    else IconFrom(icons, app, i + 1)
  }

  function IconFor(app: string): string {
    IconFrom(DefaultIcons, app, 0)
  }

  /** An application the desktop can open: its key, its display name, and the title and size
      of the window it opens. */
  datatype App = App(key: string, name: string, title: string, width: int, height: int)

  /** The applications, in the order their keys are enumerated. */
  const Apps: seq<App> := [
    App("terminal", "Terminal", "Command Prompt", 80, 24),
    App("files", "File Explorer", "File Explorer", 90, 25),
    App("browser", "Internet", "Internet", 90, 30),
    App("settings", "Settings", "Settings", 80, 25),
    App("help", "Help Center", "Help Center", 70, 22),
    App("notepad", "Notepad", "Untitled - Notepad", 70, 22),
    App("calculator", "Calculator", "Calculator", 35, 18),
    App("store", "Store", "Store", 90, 28),
    App("mail", "Mail", "Mail", 85, 26),
    App("calendar", "Calendar", "Calendar", 80, 25),
    App("photos", "Photos", "Photos", 80, 25)
  ]

  /** `appName` names `a` when it equals its key or its display name, ignoring case. */
  predicate Names(a: App, appName: string) {
    ToLower(a.key) == ToLower(appName) || ToLower(a.name) == ToLower(appName)
  }

  /** The first application of `apps` from position `i` on that `appName` names. */
  function FindAppFrom(apps: seq<App>, appName: string, i: nat): (r: Option<App>)
    requires i <= |apps|
    ensures r.None? <==> forall k :: i <= k < |apps| ==> !Names(apps[k], appName)
    ensures r.Some? ==> exists k :: i <= k < |apps| && apps[k] == r.value && Names(r.value, appName) &&
                          forall j :: i <= j < k ==> !Names(apps[j], appName)
    decreases |apps| - i
  {
    if i == |apps| then None
    else if Names(apps[i], appName) then Some(apps[i])
    else FindAppFrom(apps, appName, i + 1)
  }

  function FindApp(appName: string): Option<App> {
    FindAppFrom(Apps, appName, 0)
  }

  lemma LowerIdempotent(s: string)
    ensures ToLower(ToLower(s)) == ToLower(s)
  {
  }

  lemma {:induction false} FindAppFromIgnoresCase(apps: seq<App>, appName: string, i: nat)
    requires i <= |apps|
    ensures FindAppFrom(apps, appName, i) == FindAppFrom(apps, ToLower(appName), i)
    decreases |apps| - i
  {
    LowerIdempotent(appName);
    if i < |apps| {
      FindAppFromIgnoresCase(apps, appName, i + 1);
    }
  }

  /** Looking an application up ignores the case of the name asked for. */
  lemma FindAppIgnoresCase(appName: string)
    ensures FindApp(appName) == FindApp(ToLower(appName))
  {
    FindAppFromIgnoresCase(Apps, appName, 0);
  }

  /** An empty name opens nothing. */
  lemma EmptyNameFindsNothing()
    ensures FindApp("") == None
  {
    var apps := Apps;
    assert forall k :: 0 <= k < |apps| ==> |apps[k].key| > 0;
    forall k | 0 <= k < |apps| ensures !Names(apps[k], "") {
      assert |ToLower(apps[k].key)| == |apps[k].key|;
    }
  }

  /** The size, position and flags of a window: the part that its methods change. A saved size
      of 0 stands for one that was never saved; the source tests it for truthiness only. */
  datatype Frame = Frame(width: int, height: int, x: int, y: int, minimized: bool, maximized: bool,
                         resizable: bool, previousWidth: int, previousHeight: int)

  /** The frame of a window just created with the given size. */
  function Opening(width: int, height: int): Frame {
    Frame(width, height, 0, 0, false, false, true, 0, 0)
  }

  const MaximizedWidth := 100
  const MaximizedHeight := 30

  function Minimized(f: Frame): Frame {
    f.(minimized := true)
  }

  function Maximized(f: Frame): Frame {
    if !f.maximized then
      f.(maximized := true, previousWidth := f.width, previousHeight := f.height,
         width := MaximizedWidth, height := MaximizedHeight)
    else if f.previousWidth != 0 && f.previousHeight != 0 then
      f.(maximized := false, width := f.previousWidth, height := f.previousHeight)
    else
      f.(maximized := false)
  }

  function Resized(f: Frame, width: int, height: int): Frame {
    if f.resizable then f.(width := width, height := height) else f
  }

  function Moved(f: Frame, x: int, y: int): Frame {
    f.(x := x, y := y)
  }

  /** Minimizing sets the flag, changes nothing else, and a second time changes nothing. */
  lemma MinimizeOnlySetsFlag(f: Frame)
    ensures Minimized(f).minimized
    ensures Minimized(f).(minimized := f.minimized) == f
    ensures Minimized(Minimized(f)) == Minimized(f)
  {
  }

  /** Maximizing flips the flag, fills 100 by 30 after saving the size, and restores a saved
      size on the way back; position, minimized and resizable never change. */
  lemma MaximizeToggles(f: Frame)
    ensures var g := Maximized(f);
      g.maximized == !f.maximized &&
      g.(width := f.width, height := f.height, maximized := f.maximized,
         previousWidth := f.previousWidth, previousHeight := f.previousHeight) == f
    ensures !f.maximized ==>
      var g := Maximized(f);
      g.width == MaximizedWidth && g.height == MaximizedHeight &&
      g.previousWidth == f.width && g.previousHeight == f.height
    ensures f.maximized ==>
      var g := Maximized(f);
      g.previousWidth == f.previousWidth && g.previousHeight == f.previousHeight &&
      (g.width, g.height) ==
        (if f.previousWidth != 0 && f.previousHeight != 0 then (f.previousWidth, f.previousHeight)
         else (f.width, f.height))
  {
  }

  /** Two toggles bring a window of non-zero size back to that size, changing only the saved
      size; a zero dimension is not restored and the window keeps 100 by 30. */
  lemma MaximizeTwice(f: Frame)
    requires !f.maximized
    ensures f.width != 0 && f.height != 0 ==>
      Maximized(Maximized(f)) == f.(previousWidth := f.width, previousHeight := f.height)
    ensures f.width == 0 || f.height == 0 ==>
      Maximized(Maximized(f)).width == MaximizedWidth && Maximized(Maximized(f)).height == MaximizedHeight
  {
  }

  /** Resizing changes exactly the size, and only when the window is resizable. */
  lemma ResizeOnlyWhenResizable(f: Frame, width: int, height: int)
    ensures Resized(f, width, height) == f <==> !f.resizable || (f.width == width && f.height == height)
    ensures Resized(f, width, height).(width := f.width, height := f.height) == f
    ensures f.resizable ==> Resized(f, width, height).width == width && Resized(f, width, height).height == height
  {
  }

  /** The desktop's own state: the theme, the open windows in order, the id of the active window
      (`None` is null), and whether the start menu and notifications panels are open. */
  datatype DesktopConfig = DesktopConfig(theme: string, openWindows: seq<Window>, activeWindow: Option<int>,
                           startMenuOpen: bool, notificationsOpen: bool)

  /** The active id, when there is one, is the id of an open window. */
  predicate ActiveIsOpen(ws: seq<Window>, active: Option<int>) {
    active.Some? ==> exists k :: 0 <= k < |ws| && ws[k].id == active.value
  }

  predicate Inv(c: DesktopConfig) {
    ActiveIsOpen(c.openWindows, c.activeWindow) && !(c.startMenuOpen && c.notificationsOpen)
  }

  /** The windows of `ws` from position `i` on whose id is not `id`, in order. */
  function WithoutFrom(ws: seq<Window>, id: int, i: nat): (r: seq<Window>)
    requires i <= |ws|
    ensures forall k :: 0 <= k < |r| ==> r[k] in ws && r[k].id != id
    ensures forall k :: i <= k < |ws| && ws[k].id != id ==> ws[k] in r
    decreases |ws| - i
  {
    if i == |ws| then [] else (if ws[i].id == id then [] else [ws[i]]) + WithoutFrom(ws, id, i + 1)
  }

  /** The windows of `ws` whose id is not `id`, in order. */
  function Without(ws: seq<Window>, id: int): (r: seq<Window>)
    ensures forall k :: 0 <= k < |r| ==> r[k] in ws && r[k].id != id
    ensures forall k :: 0 <= k < |ws| && ws[k].id != id ==> ws[k] in r
  {
    WithoutFrom(ws, id, 0)
  }

  lemma {:induction false} WithoutFromSnoc(ws: seq<Window>, w: Window, id: int, i: nat)
    requires i <= |ws|
    ensures WithoutFrom(ws + [w], id, i) == WithoutFrom(ws, id, i) + (if w.id == id then [] else [w])
    decreases |ws| - i
  {
    if i == |ws| {
      assert (ws + [w])[i] == w;
    } else {
      assert (ws + [w])[i] == ws[i];
      WithoutFromSnoc(ws, w, id, i + 1);
    }
  }

  /** `filter` keeps the order: removing from no windows gives none, and a window added at the
      end is kept at the end exactly when its id differs. */
  lemma WithoutSnoc(ws: seq<Window>, w: Window, id: int)
    ensures Without([], id) == []
    ensures Without(ws + [w], id) == Without(ws, id) + (if w.id == id then [] else [w])
  {
    WithoutFromSnoc(ws, w, id, 0);
  }

  /** The first window of `ws` from position `i` on whose id is the active one. */
  function FindFrom(ws: seq<Window>, active: Option<int>, i: nat): (r: Option<Window>)
    requires i <= |ws|
    ensures r.Some? ==> r.value in ws && active == Some(r.value.id)
    ensures r.Some? ==> exists k :: i <= k < |ws| && ws[k] == r.value
                                    && forall j :: i <= j < k ==> active != Some(ws[j].id)
    ensures r.None? <==> forall k :: i <= k < |ws| ==> active != Some(ws[k].id)
    decreases |ws| - i
  {
    if i == |ws| then None
    else if active == Some(ws[i].id) then Some(ws[i])
    else FindFrom(ws, active, i + 1)
  }

  /** The first open window whose id is the active one. */
  function FindWindow(ws: seq<Window>, active: Option<int>): (r: Option<Window>)
    ensures r.Some? ==> r.value in ws && active == Some(r.value.id)
    ensures r.Some? ==> exists k :: 0 <= k < |ws| && ws[k] == r.value
                                    && forall j :: 0 <= j < k ==> active != Some(ws[j].id)
    ensures r.None? <==> forall k :: 0 <= k < |ws| ==> active != Some(ws[k].id)
  {
    FindFrom(ws, active, 0)
  }

  function Focused(c: DesktopConfig, id: int): DesktopConfig {
    c.(activeWindow := Some(id))
  }

  function OpenConfig(c: DesktopConfig, w: Window): DesktopConfig {
    c.(openWindows := c.openWindows + [w], activeWindow := Some(w.id))
  }

  function CloseConfig(c: DesktopConfig, id: int): DesktopConfig {
    var rest := Without(c.openWindows, id);
    c.(openWindows := rest,
       activeWindow :=
         if c.activeWindow == Some(id) then (if |rest| > 0 then Some(rest[|rest| - 1].id) else None)
         else c.activeWindow)
  }

  function SwitchConfig(c: DesktopConfig, index: Option<int>): DesktopConfig {
    if index.Some? && 0 <= index.value < |c.openWindows| then
      c.(activeWindow := Some(c.openWindows[index.value].id))
    else c
  }

  function StartToggled(c: DesktopConfig): DesktopConfig {
    var open := !c.startMenuOpen;
    c.(startMenuOpen := open, notificationsOpen := if open then false else c.notificationsOpen)
  }

  function NotificationsToggled(c: DesktopConfig): DesktopConfig {
    var open := !c.notificationsOpen;
    c.(notificationsOpen := open, startMenuOpen := if open then false else c.startMenuOpen)
  }

  const ThemeNames: seq<string> := ["dark", "light", "blue"]

  function ThemeChosen(c: DesktopConfig, name: string): DesktopConfig {
    if name in ThemeNames then c.(theme := name) else c
  }

  /** Opening appends the one new window and makes it the active one. */
  lemma OpenAppendsAndFocuses(c: DesktopConfig, w: Window)
    requires Inv(c)
    ensures var r := OpenConfig(c, w);
      Inv(r) && r.openWindows[..|c.openWindows|] == c.openWindows &&
      |r.openWindows| == |c.openWindows| + 1 && r.openWindows[|c.openWindows|] == w &&
      r.activeWindow == Some(w.id)
  {
    var r := OpenConfig(c, w);
    assert w in r.openWindows;
  }

  /** Closing removes exactly the windows with that id. An active window that is closed passes
      the focus to the last remaining window, or to none; the closed id is never left active. */
  lemma CloseMeaning(c: DesktopConfig, id: int)
    ensures var r := CloseConfig(c, id);
      (forall w :: w in r.openWindows <==> w in c.openWindows && w.id != id) &&
      r.activeWindow != Some(id) &&
      (c.activeWindow != Some(id) ==> r.activeWindow == c.activeWindow) &&
      (c.activeWindow == Some(id) ==>
         (r.activeWindow == None <==> r.openWindows == []) &&
         (r.openWindows != [] ==> r.activeWindow == Some(r.openWindows[|r.openWindows| - 1].id))) &&
      (r.theme, r.startMenuOpen, r.notificationsOpen) == (c.theme, c.startMenuOpen, c.notificationsOpen)
    ensures Inv(c) ==> Inv(CloseConfig(c, id))
  {
    var r := CloseConfig(c, id);
    var rest := Without(c.openWindows, id);
    if |rest| > 0 {
      assert rest[|rest| - 1] in rest;
    }
    if Inv(c) && c.activeWindow.Some? && c.activeWindow != Some(id) {
      var w :| w in c.openWindows && w.id == c.activeWindow.value;
      assert w in rest;
    }
  }

  /** Switching to an index in range activates that window; any other index changes nothing. */
  lemma SwitchMeaning(c: DesktopConfig, index: Option<int>)
    ensures index.Some? && 0 <= index.value < |c.openWindows| ==>
      SwitchConfig(c, index) == c.(activeWindow := Some(c.openWindows[index.value].id))
    ensures !(index.Some? && 0 <= index.value < |c.openWindows|) ==> SwitchConfig(c, index) == c
    ensures Inv(c) ==> Inv(SwitchConfig(c, index))
  {
    if index.Some? && 0 <= index.value < |c.openWindows| {
      assert c.openWindows[index.value] in c.openWindows;
    }
  }

  /** Whichever panel is toggled, the two are never open together afterwards; opening one
      closes the other, and closing one leaves the other as it was. */
  lemma PanelsExclusive(c: DesktopConfig)
    ensures !(StartToggled(c).startMenuOpen && StartToggled(c).notificationsOpen)
    ensures !(NotificationsToggled(c).startMenuOpen && NotificationsToggled(c).notificationsOpen)
    ensures StartToggled(c).startMenuOpen == !c.startMenuOpen
    ensures NotificationsToggled(c).notificationsOpen == !c.notificationsOpen
    ensures c.startMenuOpen ==> StartToggled(c).notificationsOpen == c.notificationsOpen
    ensures c.notificationsOpen ==> NotificationsToggled(c).startMenuOpen == c.startMenuOpen
  {
  }

  /** Only the three known themes are ever chosen; any other name keeps the theme. */
  lemma ThemeOnlyKnown(c: DesktopConfig, name: string)
    ensures ThemeChosen(c, name).theme == (if name in {"dark", "light", "blue"} then name else c.theme)
    ensures ThemeChosen(c, name).(theme := c.theme) == c
  {
  }

  /** The colours of a theme. */
  datatype Palette = Palette(primary: string, secondary: string, accent: string, text: string,
                             highlight: string)

  function ThemeColors(theme: string): Palette {
    if theme == "light" then Palette("blue", "cyan", "magenta", "black", "green")
    else if theme == "blue" then Palette("blue", "cyan", "white", "white", "yellow")
    else Palette("blue", "cyan", "magenta", "white", "green")
  }

  /** An unknown theme is drawn in the dark theme's colours, and the three themes differ. */
  lemma ThemeFallback(theme: string)
    ensures theme !in ThemeNames ==> ThemeColors(theme) == ThemeColors("dark")
    ensures ThemeColors("dark") != ThemeColors("light") && ThemeColors("dark") != ThemeColors("blue") &&
            ThemeColors("light") != ThemeColors("blue")
  {
  }

  /** A window. Its id, title, application, theme and icon are fixed when it is created; its
      frame changes through its methods. */
  class Window {
    const id: int
    const title: string
    const app: string
    const theme: string
    const icon: string
    var width: int
    var height: int
    var x: int
    var y: int
    var minimized: bool
    var maximized: bool
    var resizable: bool
    var previousWidth: int
    var previousHeight: int

    function State(): Frame
      reads this
    {
      Frame(width, height, x, y, minimized, maximized, resizable, previousWidth, previousHeight)
    }

    constructor(id: int, title: string, app: string, width: int, height: int, theme: string)
      ensures this.id == id && this.title == title && this.app == app && this.theme == theme
      ensures icon == IconFor(app)
      ensures State() == Opening(width, height)
    {
      this.id := id;
      this.title := title;
      this.app := app;
      this.width := width;
      this.height := height;
      this.x := 0;
      this.y := 0;
      this.minimized := false;
      this.maximized := false;
      this.resizable := true;
      this.theme := theme;
      this.icon := IconFor(app);
      this.previousWidth := 0;
      this.previousHeight := 0;
    }

    method Focus(desk: Desktop)
      modifies desk
      ensures desk.Config() == Focused(old(desk.Config()), id)
    {
      desk.activeWindow := Some(id);
    }

    method Minimize()
      modifies this
      ensures State() == Minimized(old(State()))
    {
      minimized := true;
    }

    method Maximize()
      modifies this
      ensures State() == Maximized(old(State()))
    {
      maximized := !maximized;
      if maximized {
        previousWidth := width;
        previousHeight := height;
        width := MaximizedWidth;
        height := MaximizedHeight;
      } else if previousWidth != 0 && previousHeight != 0 {
        width := previousWidth;
        height := previousHeight;
      }
    }

    method Close(desk: Desktop)
      modifies desk
      ensures desk.Config() == CloseConfig(old(desk.Config()), id)
    {
      desk.openWindows := Without(desk.openWindows, id);
      if desk.activeWindow == Some(id) {
        desk.activeWindow :=
          if |desk.openWindows| > 0 then Some(desk.openWindows[|desk.openWindows| - 1].id) else None;
      }
    }

    method Resize(width: int, height: int)
      modifies this
      ensures State() == Resized(old(State()), width, height)
    {
      if resizable {
        this.width := width;
        this.height := height;
      }
    }

    method Move(x: int, y: int)
      modifies this
      ensures State() == Moved(old(State()), x, y)
    {
      this.x := x;
      this.y := y;
    }
  }

  /** `w` is the window that opening `a` creates with id `id` under `theme`. */
  predicate Launched(w: Window, a: App, id: int, theme: string)
    reads w
  {
    w.id == id && w.title == a.title && w.app == a.key && w.theme == theme && w.icon == IconFor(a.key) &&
    w.State() == Opening(a.width, a.height)
  }

  /** A desktop command, as the first word of the input and its arguments select it. */
  datatype Action =
    | ToggleStart
    | ToggleNotifications
    | Open(app: string, closesStart: bool)
    | CloseActive
    | MinimizeActive
    | MaximizeActive
    | Switch(index: Option<int>)
    | ChooseTheme(name: string)
    | NoChange

  /** The commands that open the application of the same key. */
  const Shortcuts: seq<string> :=
    ["settings", "browser", "files", "notepad", "calculator", "store", "mail", "calendar", "photos"]

  /** The words of an input line: split on single spaces after trimming. */
  function Words(input: string): (words: seq<string>)
    ensures |words| >= 1
  {
    SplitOn(Trim(input), ' ')
  }

  /** The window number given after `switch`, as `parseInt` reads it; `None` is NaN. */
  function WindowNumber(args: seq<string>): Option<int> {
    ParseInt(if |args| > 0 then Some(args[0]) else None)
  }

  /** The position of the window numbered `number` counting from one. */
  function FromOne(number: Option<int>): Option<int> {
    match number
    case None => None
    case Some(n) => Some(n - 1)
  }

  /** The command that a lower-cased first word and the words after it select. */
  function CommandAction(command: string, args: seq<string>): Action {
    if command == "start" then ToggleStart
    else if command == "notifications" then ToggleNotifications
    else if command == "open" then Open(if |args| > 0 then args[0] else "", true)
    else if command == "close" then CloseActive
    else if command == "minimize" then MinimizeActive
    else if command == "maximize" then MaximizeActive
    else if command == "switch" then Switch(FromOne(WindowNumber(args)))
    else if command in Shortcuts then Open(command, false)
    else if command == "theme" then (if |args| > 0 then ChooseTheme(ToLower(args[0])) else NoChange)
    else NoChange
  }

  function ActionOf(input: string): Action {
    var words := Words(input);
    CommandAction(ToLower(words[0]), words[1..])
  }

  /** Theme names are lower-cased as `toLowerCase` does, the Kelvin sign included: "DAR"
      followed by U+212A selects the dark theme. */
  lemma KelvinSignTheme(input: string)
    requires input == "theme DAR\U{212A}"
    ensures ActionOf(input) == ChooseTheme("dark")
  {
    var name := "DAR\U{212A}";
    ThemeWords(input, name);
    var words := Words(input);
    assert ToLower(words[0]) == "theme" && words[1..] == [name];
    assert ToLower(name) == "dark";
    assert CommandAction("theme", [name]) == ChooseTheme(ToLower(name));
  }

  lemma ThemeWords(input: string, name: string)
    requires input == "theme DAR\U{212A}" && name == "DAR\U{212A}"
    ensures Words(input) == ["theme", name]
  {
    assert TrimStart(input) == input;
    assert TrimEnd(input) == input;
    assert input == "theme" + [' '] + name;
    SplitNoSeparator(name, ' ');
    SplitAtFirst("theme", name, ' ');
  }

  /** The desktop configuration after `act`; `created` is the window an `Open` created, if any. */
  function Step(c: DesktopConfig, act: Action, created: Option<Window>): DesktopConfig {
    match act
    case ToggleStart => StartToggled(c)
    case ToggleNotifications => NotificationsToggled(c)
    case Open(_, closesStart) =>
      var c1 := if created.Some? then OpenConfig(c, created.value) else c;
      if closesStart then c1.(startMenuOpen := false) else c1
    case CloseActive =>
      (match FindWindow(c.openWindows, c.activeWindow)
       case None => c
       case Some(w) => CloseConfig(c, w.id))
    case Switch(index) => SwitchConfig(c, index)
    case ChooseTheme(name) => ThemeChosen(c, name)
    case _ => c
  }

  /** The window whose frame `act` changes: the active one, for minimize and maximize. */
  function Target(c: DesktopConfig, act: Action): Option<Window> {
    if act.MinimizeActive? || act.MaximizeActive? then FindWindow(c.openWindows, c.activeWindow) else None
  }

  function Transform(act: Action, f: Frame): Frame {
    if act.MinimizeActive? then Minimized(f) else if act.MaximizeActive? then Maximized(f) else f
  }

  /** Every desktop command keeps the active id pointing at an open window and the two panels
      from being open together. */
  lemma StepKeepsInv(c: DesktopConfig, act: Action, created: Option<Window>)
    requires Inv(c)
    ensures Inv(Step(c, act, created))
  {
    match act
    case Open(_, _) =>
      if created.Some? {
        OpenAppendsAndFocuses(c, created.value);
      }
    case CloseActive =>
      var found := FindWindow(c.openWindows, c.activeWindow);
      if found.Some? {
        CloseMeaning(c, found.value.id);
      }
    case Switch(index) =>
      SwitchMeaning(c, index);
    case _ =>
  }

  /** `switch n` activates the n-th open window counting from one; a number out of range, or
      one that is not a number, changes nothing. */
  lemma SwitchCountsFromOne(c: DesktopConfig, number: Option<int>)
    ensures number.Some? && 1 <= number.value <= |c.openWindows| ==>
      Step(c, Switch(FromOne(number)), None) == c.(activeWindow := Some(c.openWindows[number.value - 1].id))
    ensures !(number.Some? && 1 <= number.value <= |c.openWindows|) ==>
      Step(c, Switch(FromOne(number)), None) == c
  {
  }

  /** The words the desktop understands as commands that change its state. */
  const StateCommands: seq<string> :=
    ["start", "notifications", "open", "close", "minimize", "maximize", "switch", "theme"] + Shortcuts

  /** Any other first word (help, taskview, power, terminal, or an unknown one) changes nothing,
      and so does `theme` without a name. */
  lemma OtherCommandsChangeNothing(command: string, args: seq<string>)
    ensures command !in StateCommands ==> CommandAction(command, args) == NoChange
    ensures CommandAction("theme", []) == NoChange
  {
  }

  /** The desktop: its configuration, updated in place by the commands. */
  class Desktop {
    var theme: string
    var openWindows: seq<Window>
    var activeWindow: Option<int>
    var startMenuOpen: bool
    var notificationsOpen: bool

    function Config(): DesktopConfig
      reads this
    {
      DesktopConfig(theme, openWindows, activeWindow, startMenuOpen, notificationsOpen)
    }

    ghost predicate Valid()
      reads this
    {
      Inv(Config())
    }

    /** The initial configuration, with the theme the settings give (`""` when they give none). */
    constructor(configTheme: string)
      ensures Valid()
      ensures Config() == DesktopConfig(if configTheme == "" then "dark" else configTheme, [], None, false, false)
    {
      theme := if configTheme == "" then "dark" else configTheme;
      openWindows := [];
      activeWindow := None;
      startMenuOpen := false;
      notificationsOpen := false;
    }

    method OpenApplication(appName: string, id: int) returns (ghost created: Option<Window>)
      requires Valid()
      modifies this
      ensures Valid()
      ensures created.Some? <==> FindApp(appName).Some?
      ensures created.None? ==> Config() == old(Config())
      ensures created.Some? ==>
        fresh(created.value) && Config() == OpenConfig(old(Config()), created.value) &&
        Launched(created.value, FindApp(appName).value, id, old(theme))
    {
      created := None;
      if appName == "" {
        EmptyNameFindsNothing();
        return;
      }
      var app := FindApp(appName);
      if app.Some? {
        var a := app.value;
        var w := new Window(id, a.title, a.key, a.width, a.height, theme);
        openWindows := openWindows + [w];
        w.Focus(this);
        created := Some(w);
        OpenAppendsAndFocuses(old(Config()), w);
      }
    }

    method CloseActiveWindow()
      requires Valid()
      modifies this
      ensures Valid()
      ensures Config() == Step(old(Config()), CloseActive, None)
    {
      var found := FindWindow(openWindows, activeWindow);
      if found.Some? {
        found.value.Close(this);
        CloseMeaning(old(Config()), found.value.id);
      }
    }

    method MinimizeActiveWindow()
      modifies openWindows
      ensures forall v :: v in openWindows ==>
        if Some(v) == FindWindow(openWindows, activeWindow) then v.State() == Minimized(old(v.State()))
        else unchanged(v)
    {
      var found := FindWindow(openWindows, activeWindow);
      if found.Some? {
        found.value.Minimize();
      }
    }

    method MaximizeActiveWindow()
      modifies openWindows
      ensures forall v :: v in openWindows ==>
        if Some(v) == FindWindow(openWindows, activeWindow) then v.State() == Maximized(old(v.State()))
        else unchanged(v)
    {
      var found := FindWindow(openWindows, activeWindow);
      if found.Some? {
        found.value.Maximize();
      }
    }

    /** `index` is `None` when the window number is not a number. */
    method SwitchWindow(index: Option<int>)
      requires Valid()
      modifies this
      ensures Valid()
      ensures Config() == SwitchConfig(old(Config()), index)
    {
      SwitchMeaning(Config(), index);
      if index.Some? && index.value >= 0 && index.value < |openWindows| {
        activeWindow := Some(openWindows[index.value].id);
      }
    }

    /** `open <app>` and the shortcut commands: opening `app`, and closing the start menu when
        `closesStart`. */
    method OpenCommand(app: string, closesStart: bool, id: int) returns (ghost created: Option<Window>)
      requires Valid()
      modifies this
      ensures Valid()
      ensures created.Some? <==> FindApp(app).Some?
      ensures created.Some? ==> fresh(created.value) && Launched(created.value, FindApp(app).value, id, old(theme))
      ensures Config() == Step(old(Config()), Open(app, closesStart), created)
    {
      created := OpenApplication(app, id);
      if closesStart {
        startMenuOpen := false;
      }
    }

    /** Carries out one desktop command. `id` is the id a window opened by it receives. */
    method Perform(act: Action, id: int) returns (ghost created: Option<Window>)
      requires Valid()
      modifies this, openWindows
      ensures Valid()
      ensures created.Some? <==> act.Open? && FindApp(act.app).Some?
      ensures created.Some? ==> fresh(created.value) && Launched(created.value, FindApp(act.app).value, id, old(theme))
      ensures Config() == Step(old(Config()), act, created)
      ensures forall v :: v in old(openWindows) ==>
        if Some(v) == Target(old(Config()), act) then v.State() == Transform(act, old(v.State()))
        else unchanged(v)
    {
      created := None;
      match act {
        case ToggleStart =>
          startMenuOpen := !startMenuOpen;
          if startMenuOpen {
            notificationsOpen := false;
          }
        case ToggleNotifications =>
          notificationsOpen := !notificationsOpen;
          if notificationsOpen {
            startMenuOpen := false;
          }
        case ChooseTheme(name) =>
          if name in ThemeNames {
            theme := name;
          }
        case MinimizeActive =>
          MinimizeActiveWindow();
        case MaximizeActive =>
          MaximizeActiveWindow();
        case Open(app, closesStart) =>
          created := OpenCommand(app, closesStart, id);
        case CloseActive =>
          CloseActiveWindow();
        case Switch(index) =>
          SwitchWindow(index);
        case NoChange =>
      }
    }

    /** One line typed at the desktop prompt: its first word, ignoring case, selects the command. */
    method HandleDesktopCommand(input: string, id: int) returns (ghost created: Option<Window>)
      requires Valid()
      modifies this, openWindows
      ensures Valid()
      ensures var act := ActionOf(input); created.Some? <==> act.Open? && FindApp(act.app).Some?
      ensures created.Some? ==>
        fresh(created.value) && Launched(created.value, FindApp(ActionOf(input).app).value, id, old(theme))
      ensures Config() == Step(old(Config()), ActionOf(input), created)
      ensures forall v :: v in old(openWindows) ==>
        if Some(v) == Target(old(Config()), ActionOf(input))
        then v.State() == Transform(ActionOf(input), old(v.State()))
        else unchanged(v)
    {
      created := Perform(ActionOf(input), id);
    }
  }

  /** The applications pinned to the taskbar. */
  const PinnedApps: seq<string> := ["browser", "files", "terminal", "mail"]

  const TaskbarSlots := 8

  function AppsOf(ws: seq<Window>): (apps: seq<string>)
    ensures |apps| == |ws| && forall k :: 0 <= k < |ws| ==> apps[k] == ws[k].app
  {
    seq(|ws|, k requires 0 <= k < |ws| => ws[k].app)
  }

  predicate Distinct(xs: seq<string>) {
    forall i, j :: 0 <= i < j < |xs| ==> xs[i] != xs[j]
  }

  /** The elements of `xs` in the order they first occur, each once. */
  function Dedup(xs: seq<string>): (r: seq<string>)
    ensures forall x :: x in r <==> x in xs
    ensures Distinct(r)
    decreases |xs|
  {
    if xs == [] then []
    else
      var d := Dedup(xs[..|xs| - 1]);
      var last := xs[|xs| - 1];
      assert forall x :: x in xs <==> x in xs[..|xs| - 1] || x == last by {
        assert xs == xs[..|xs| - 1] + [last];
      }
      if last in d then d else d + [last]
  }

  /** Extending a sequence only extends the list of its first occurrences. */
  lemma {:induction false} DedupPrefix(a: seq<string>, b: seq<string>)
    ensures Dedup(a) <= Dedup(a + b)
    decreases |b|
  {
    if b == [] {
      assert a + b == a;
    } else {
      var b' := b[..|b| - 1];
      DedupPrefix(a, b');
      assert (a + b)[..|a + b| - 1] == a + b';
    }
  }

  /** The applications shown on the taskbar: those of the open windows, then the pinned ones,
      each once, at most eight. */
  function TaskbarApps(ws: seq<Window>): seq<string> {
    var all := Dedup(AppsOf(ws) + PinnedApps);
    if |all| <= TaskbarSlots then all else all[..TaskbarSlots]
  }

  /** The taskbar shows at most eight distinct applications, each open or pinned, in the order
      they first occur; the open ones come first, so all of them are shown when there are at most
      eight, and every open or pinned application is shown when there are at most eight in all. */
  lemma TaskbarContents(ws: seq<Window>)
    ensures var r := TaskbarApps(ws);
      |r| <= TaskbarSlots && Distinct(r) &&
      (forall x :: x in r ==> x in AppsOf(ws) || x in PinnedApps) &&
      r <= Dedup(AppsOf(ws) + PinnedApps)
    ensures |Dedup(AppsOf(ws))| <= TaskbarSlots ==> Dedup(AppsOf(ws)) <= TaskbarApps(ws)
    ensures |Dedup(AppsOf(ws) + PinnedApps)| <= TaskbarSlots ==>
      forall x :: x in AppsOf(ws) + PinnedApps ==> x in TaskbarApps(ws)
  {
    var all := Dedup(AppsOf(ws) + PinnedApps);
    var r := TaskbarApps(ws);
    DedupPrefix(AppsOf(ws), PinnedApps);
    forall x | x in r ensures x in AppsOf(ws) || x in PinnedApps {
      assert x in all;
    }
  }
}
