/** The text-mode web browser of lib/browser.js: the address normalisation, the lookup in the
    table of simulated sites, the back/forward history and the bookmarks. */
module Browser {
  import opened Text

  /** One entry of the simulated web: its address and its title. */
  datatype Site = Site(url: string, title: string)

  /** The simulated sites, in the order their keys are enumerated. */
  const Websites: seq<Site> := [
    Site("about:home", "TextOS Browser Home"),
    Site("about:blank", "New Tab"),
    Site("about:bookmarks", "Bookmarks"),
    Site("about:history", "Browser History"),
    Site("about:downloads", "Downloads"),
    Site("about:settings", "Browser Settings"),
    Site("textos.help", "TextOS Help Portal"),
    Site("textos.web", "TextOS Web Portal"),
    Site("mail.textos.local", "TextOS Mail"),
    Site("chat.textos.local", "TextOS Chat"),
    Site("docs.textos.local", "TextOS Documents"),
    Site("games.textos.local", "TextOS Games"),
    Site("error:404", "Page Not Found")
  ]

  const NotFoundPage := "error:404"

  predicate Known(url: string) {
    exists k :: 0 <= k < |Websites| && Websites[k].url == url
  }

  /** `websites[url].title`, when there is such a site. */
  function TitleOf(url: string): (r: Option<string>)
    ensures r.Some? <==> Known(url)
    ensures r.Some? ==> exists k :: 0 <= k < |Websites| && Websites[k] == Site(url, r.value)
  {
    TitleIn(Websites, url)
  }

  function TitleIn(sites: seq<Site>, url: string): (r: Option<string>)
    ensures r.Some? <==> exists k :: 0 <= k < |sites| && sites[k].url == url
    ensures r.Some? ==> exists k :: 0 <= k < |sites| && sites[k] == Site(url, r.value)
                                   && forall j :: 0 <= j < k ==> sites[j].url != url
  {
    if |sites| == 0 then None
    else if sites[0].url == url then Some(sites[0].title)
    else
      var r := TitleIn(sites[1..], url);
      assert forall k :: 1 <= k < |sites| ==> sites[k] == sites[1..][k - 1];
      r
  }

  /** `parts[1] || parts[0]` of `u.split('://')`, for a `u` containing "://": the text between
      the first separator and the next one, or the text before the first when that is empty. */
  function AfterProtocol(u: string): string {
    var i := IndexOf(u, "://");
    if i < 0 then u
    else
      var rest := u[i + 3..];
      var j := IndexOf(rest, "://");
      var second := if j < 0 then rest else rest[..j];
      if second != "" then second else u[..i]
  }

  /** The normalisation of `navigateTo`: a bare name becomes an `about:` page, a name with a dot
      gets `http://`, and the protocol is then stripped. */
  function NormalizeUrl(url: string): string {
    Normalize(Trim(url))
  }

  /** The normalisation of an address that is already trimmed. */
  function Normalize(u: string): string {
    var withProtocol :=
      if !StartsWith(u, "about:") && !Contains(u, "://") then
        (if Contains(u, ".") then "http://" + u else "about:" + u)
      else u;
    if Contains(withProtocol, "://") then AfterProtocol(withProtocol) else withProtocol
  }

  /** The first site in `sites` whose address occurs in `u`. */
  function FirstContained(sites: seq<Site>, u: string): Option<string>
  {
    if |sites| == 0 then None
    else if Contains(u, sites[0].url) then Some(sites[0].url)
    else FirstContained(sites[1..], u)
  }

  /** The scan stops at the first site whose address occurs in `u`, and finds none only when
      no address occurs in it. */
  lemma {:induction false} FirstContainedMeaning(sites: seq<Site>, u: string)
    ensures var r := FirstContained(sites, u);
      && (r.Some? ==> exists k :: (0 <= k < |sites| && sites[k].url == r.value && Contains(u, r.value)
                                   && forall m :: 0 <= m < k ==> !Contains(u, sites[m].url)))
      && (r.None? ==> forall k :: 0 <= k < |sites| ==> !Contains(u, sites[k].url))
  {
    if |sites| > 0 && !Contains(u, sites[0].url) {
      FirstContainedMeaning(sites[1..], u);
      assert forall k :: 1 <= k < |sites| ==> sites[k] == sites[1..][k - 1];
      var r := FirstContained(sites, u);
      if r.Some? {
        var k :| 0 <= k < |sites| - 1 && sites[1..][k].url == r.value && Contains(u, r.value)
                 && forall m :: 0 <= m < k ==> !Contains(u, sites[1..][m].url);
        assert sites[k + 1].url == r.value;
        assert forall m :: 0 <= m < k + 1 ==> !Contains(u, sites[m].url) by {
          forall m | 0 <= m < k + 1
            ensures !Contains(u, sites[m].url)
          {
            if m > 0 {
              assert sites[m] == sites[1..][m - 1];
            }
          }
        }
      }
    }
  }

  /** Where `navigateTo(url)` lands: the first site contained in the normalised address, or
      the error page. */
  function Destination(url: string): string {
    match FirstContained(Websites, NormalizeUrl(url))
    case Some(d) => d
    case None => NotFoundPage
  }

  datatype Bookmark = Bookmark(url: string, title: string)

  /** The fields of `browserState` that the commands change. */
  datatype Snapshot = Snapshot(currentUrl: string, history: seq<string>, historyIndex: int, bookmarks: seq<Bookmark>)

  const Initial := Snapshot("about:home", ["about:home"], 0, [])

  predicate Bookmarked(bookmarks: seq<Bookmark>, url: string) {
    exists k :: 0 <= k < |bookmarks| && bookmarks[k].url == url
  }

  /** The history index points into the history, at the current page; every page visited is a
      site of the table; bookmarks are of known sites and no address is bookmarked twice. */
  predicate Inv(v: Snapshot) {
    && 0 <= v.historyIndex < |v.history|
    && v.currentUrl == v.history[v.historyIndex]
    && (forall k :: 0 <= k < |v.history| ==> Known(v.history[k]))
    && (forall k :: 0 <= k < |v.bookmarks| ==> Known(v.bookmarks[k].url))
    && (forall k, m :: 0 <= k < m < |v.bookmarks| ==> v.bookmarks[k].url != v.bookmarks[m].url)
  }

  /** `navigateTo(url)` */
  function NavigateView(v: Snapshot, url: string): Snapshot {
    if url == "" then v else Visit(v, Destination(url))
  }

  /** The history update of `navigateTo` once the destination `d` is known. */
  function Visit(v: Snapshot, d: string): Snapshot {
    var kept := if 0 <= v.historyIndex < |v.history| - 1 then v.history[..v.historyIndex + 1] else v.history;
    var h := kept + [d];
    v.(currentUrl := d, history := h, historyIndex := |h| - 1)
  }

  /** `navigateBack()` */
  function BackView(v: Snapshot): Snapshot
    requires 0 <= v.historyIndex <= |v.history|
  {
    if v.historyIndex > 0 then v.(historyIndex := v.historyIndex - 1, currentUrl := v.history[v.historyIndex - 1])
    else v
  }

  /** `navigateForward()` */
  function ForwardView(v: Snapshot): Snapshot
    requires -1 <= v.historyIndex
  {
    if v.historyIndex < |v.history| - 1 then
      v.(historyIndex := v.historyIndex + 1, currentUrl := v.history[v.historyIndex + 1])
    else v
  }

  /** `addBookmark()` */
  function BookmarkView(v: Snapshot): Snapshot {
    match TitleOf(v.currentUrl)
    case None => v
    case Some(title) =>
      if Bookmarked(v.bookmarks, v.currentUrl) then v
      else v.(bookmarks := v.bookmarks + [Bookmark(v.currentUrl, title)])
  }

  /** The commands `handleBrowserCommand` recognises. */
  const BrowserCommands: set<string> :=
    {"go", "back", "forward", "refresh", "home", "bookmarks", "addbookmark", "history",
     "downloads", "settings", "help"}

  /** `handleBrowserCommand(input)`: the first word, lower-cased, picks the action; the rest
      of the words, joined by single spaces, is the address of `go`. */
  function CommandView(v: Snapshot, input: string): Snapshot
    requires Inv(v)
  {
    var parts := SplitOn(Trim(input), ' ');
    Dispatch(v, ToLower(parts[0]), Join(parts[1..], " "), input)
  }

  /** The command `command` with the argument text `args`, typed as the line `input`. */
  function Dispatch(v: Snapshot, command: string, args: string, input: string): Snapshot
    requires Inv(v)
  {
    if command == "go" then NavigateView(v, args)
    else if command == "back" then BackView(v)
    else if command == "forward" then ForwardView(v)
    else if command == "refresh" then v
    else if command == "home" then NavigateView(v, "about:home")
    else if command == "bookmarks" then NavigateView(v, "about:bookmarks")
    else if command == "addbookmark" then BookmarkView(v)
    else if command == "history" then NavigateView(v, "about:history")
    else if command == "downloads" then NavigateView(v, "about:downloads")
    else if command == "settings" then NavigateView(v, "about:settings")
    else if command == "help" then v
    else if Contains(input, ".") || StartsWith(input, "about:") then NavigateView(v, input)
    else v
  }

  // ---------------------------------------------------------------------------------------
  // The `browserState` object

  class BrowserState {
    var currentUrl: string
    var history: seq<string>
    var historyIndex: int
    var bookmarks: seq<Bookmark>

    function View(): Snapshot
      reads this
    {
      Snapshot(currentUrl, history, historyIndex, bookmarks)
    }

    ghost predicate Valid()
      reads this
    {
      Inv(View())
    }

    constructor ()
      ensures Valid() && View() == Initial
    {
      currentUrl := "about:home";
      history := ["about:home"];
      historyIndex := 0;
      bookmarks := [];
      assert Known(Websites[0].url);
    }

    /** `navigateTo(url)` */
    method NavigateTo(url: string)
      requires Valid()
      modifies this
      ensures Valid() && View() == NavigateView(old(View()), url)
    {
      if url == "" {
        return;
      }
      var normalizedUrl := NormalizeUrl(url);
      var found := FirstContained(Websites, normalizedUrl);
      var domain := if found.Some? then found.value else NotFoundPage;
      NavigateKeepsInv(View(), url);
      currentUrl := domain;
      if historyIndex < |history| - 1 {
        history := history[..historyIndex + 1];
      }
      history := history + [domain];
      historyIndex := |history| - 1;
    }

    /** `navigateBack()` */
    method NavigateBack()
      requires Valid()
      modifies this
      ensures Valid() && View() == BackView(old(View()))
    {
      if historyIndex > 0 {
        historyIndex := historyIndex - 1;
        currentUrl := history[historyIndex];
      }
    }

    /** `navigateForward()` */
    method NavigateForward()
      requires Valid()
      modifies this
      ensures Valid() && View() == ForwardView(old(View()))
    {
      if historyIndex < |history| - 1 {
        historyIndex := historyIndex + 1;
        currentUrl := history[historyIndex];
      }
    }

    /** `addBookmark()` */
    method AddBookmark()
      requires Valid()
      modifies this
      ensures Valid() && View() == BookmarkView(old(View()))
    {
      var page := TitleOf(currentUrl);
      if page.Some? {
        var exists_ := Bookmarked(bookmarks, currentUrl);
        if !exists_ {
          BookmarkKeepsInv(View());
          bookmarks := bookmarks + [Bookmark(currentUrl, page.value)];
        }
      }
    }

    /** `handleBrowserCommand(input)` */
    method HandleBrowserCommand(input: string)
      requires Valid()
      modifies this
      ensures Valid() && View() == CommandView(old(View()), input)
    {
      var parts := SplitOn(Trim(input), ' ');
      var command := ToLower(parts[0]);
      var args := Join(parts[1..], " ");
      if command == "go" {
        NavigateTo(args);
      } else if command == "back" {
        NavigateBack();
      } else if command == "forward" {
        NavigateForward();
      } else if command == "refresh" {
      } else if command == "home" {
        NavigateTo("about:home");
      } else if command == "bookmarks" {
        NavigateTo("about:bookmarks");
      } else if command == "addbookmark" {
        AddBookmark();
      } else if command == "history" {
        NavigateTo("about:history");
      } else if command == "downloads" {
        NavigateTo("about:downloads");
      } else if command == "settings" {
        NavigateTo("about:settings");
      } else if command == "help" {
      } else if Contains(input, ".") || StartsWith(input, "about:") {
        NavigateTo(input);
      }
    }
  }

  // ---------------------------------------------------------------------------------------
  // Properties

  /** Every navigation lands on a site of the table. */
  lemma DestinationKnown(url: string)
    ensures Known(Destination(url))
  {
    FirstContainedMeaning(Websites, NormalizeUrl(url));
    assert Websites[12].url == NotFoundPage;
  }

  /** Navigating discards the pages after the current one, appends the destination and makes
      it current; bookmarks are kept and the invariant is preserved. An empty address changes
      nothing. */
  lemma NavigateKeepsInv(v: Snapshot, url: string)
    requires Inv(v)
    ensures var w := NavigateView(v, url);
      && Inv(w)
      && (url == "" ==> w == v)
      && (url != "" ==>
            && w.currentUrl == Destination(url)
            && w.history == v.history[..v.historyIndex + 1] + [w.currentUrl]
            && w.historyIndex == |w.history| - 1 == v.historyIndex + 1
            && w.bookmarks == v.bookmarks)
  {
    if url != "" {
      DestinationKnown(url);
      VisitKeepsInv(v, Destination(url));
    }
  }

  lemma VisitKeepsInv(v: Snapshot, d: string)
    requires Inv(v) && Known(d)
    ensures var w := Visit(v, d);
      && Inv(w)
      && w.currentUrl == d
      && w.history == v.history[..v.historyIndex + 1] + [d]
      && w.historyIndex == |w.history| - 1 == v.historyIndex + 1
      && w.bookmarks == v.bookmarks
  {
    var w := Visit(v, d);
    assert v.history[..v.historyIndex + 1] == if v.historyIndex < |v.history| - 1 then v.history[..v.historyIndex + 1] else v.history;
    forall k | 0 <= k < |w.history| ensures Known(w.history[k]) {
      if k < v.historyIndex + 1 {
        assert w.history[k] == v.history[k];
      }
    }
  }

  /** Going back and going forward keep the history and the bookmarks; each moves only when
      there is a page in that direction, and then by exactly one step. */
  lemma BackForwardKeepInv(v: Snapshot)
    requires Inv(v)
    ensures Inv(BackView(v)) && Inv(ForwardView(v))
    ensures BackView(v).history == v.history && ForwardView(v).history == v.history
    ensures BackView(v).bookmarks == v.bookmarks && ForwardView(v).bookmarks == v.bookmarks
    ensures BackView(v).historyIndex == if v.historyIndex > 0 then v.historyIndex - 1 else v.historyIndex
    ensures ForwardView(v).historyIndex ==
              if v.historyIndex < |v.history| - 1 then v.historyIndex + 1 else v.historyIndex
  {
  }

  /** Back then forward, or forward then back, returns to the same page when the first step
      moved. */
  lemma BackForwardRoundTrip(v: Snapshot)
    requires Inv(v)
    ensures v.historyIndex > 0 ==> ForwardView(BackView(v)) == v
    ensures v.historyIndex < |v.history| - 1 ==> BackView(ForwardView(v)) == v
  {
  }

  /** A bookmark is added only for a known page not bookmarked yet, so no address is
      bookmarked twice; nothing else changes. */
  lemma BookmarkKeepsInv(v: Snapshot)
    requires Inv(v)
    ensures var w := BookmarkView(v);
      && Inv(w)
      && w.(bookmarks := v.bookmarks) == v
      && (Bookmarked(v.bookmarks, v.currentUrl) ==> w == v)
      && (!Bookmarked(v.bookmarks, v.currentUrl) ==>
            w.bookmarks == v.bookmarks + [Bookmark(v.currentUrl, TitleOf(v.currentUrl).value)])
      && Bookmarked(w.bookmarks, v.currentUrl)
  {
    var w := BookmarkView(v);
    assert Known(v.history[v.historyIndex]);
    if !Bookmarked(v.bookmarks, v.currentUrl) {
      assert w.bookmarks[|v.bookmarks|].url == v.currentUrl;
      forall k, m | 0 <= k < m < |w.bookmarks| ensures w.bookmarks[k].url != w.bookmarks[m].url {
        if m == |v.bookmarks| {
          assert w.bookmarks[k] == v.bookmarks[k];
        } else {
          assert w.bookmarks[k] == v.bookmarks[k] && w.bookmarks[m] == v.bookmarks[m];
        }
      }
      forall k | 0 <= k < |w.bookmarks| ensures Known(w.bookmarks[k].url) {
        if k < |v.bookmarks| {
          assert w.bookmarks[k] == v.bookmarks[k];
        }
      }
    }
  }

  /** Without "://", an address keeps its text when it starts with "about:" or contains a dot,
      and otherwise becomes the `about:` page of that name, except that a name starting with
      "//" then contains "://" and loses its new `about:` prefix again. */
  lemma NormalizeWithoutProtocol(u: string)
    requires !Contains(u, "://")
    ensures Normalize(u) ==
      if StartsWith(u, "about:") || Contains(u, ".") then u
      else if StartsWith(u, "//") then AfterProtocol("about:" + u)
      else "about:" + u
  {
    if !StartsWith(u, "about:") && Contains(u, ".") {
      HttpPrefixStripped(u);
    } else if !StartsWith(u, "about:") && !StartsWith(u, "//") {
      AboutPrefixAddsNoProtocol(u);
    } else if !StartsWith(u, "about:") {
      assert ("about:" + u)[5..8] == "://";
      assert OccursAt("about:" + u, "://", 5);
    }
  }

  lemma HttpPrefixStripped(u: string)
    requires !Contains(u, "://") && u != ""
    ensures Contains("http://" + u, "://")
    ensures AfterProtocol("http://" + u) == u
  {
    var w := "http://" + u;
    assert w[4..7] == "://";
    assert OccursAt(w, "://", 4);
    var i := IndexOf(w, "://");
    assert w[i..i + 3][0] == w[i];
    assert i == 4;
    assert w[7..] == u;
  }

  lemma AboutPrefixAddsNoProtocol(u: string)
    requires !Contains(u, "://") && !StartsWith(u, "//")
    ensures !Contains("about:" + u, "://")
  {
    forall j | OccursAt("about:" + u, "://", j) ensures false {
      AboutOccurrence(u, j);
    }
  }

  /** Where "://" can occur once "about:" is put in front of `u`. */
  lemma AboutOccurrence(u: string, j: int)
    requires OccursAt("about:" + u, "://", j)
    ensures (j == 5 && StartsWith(u, "//")) || (j > 5 && OccursAt(u, "://", j - 6))
  {
    var w := "about:" + u;
    assert w[j] == ':' && w[j + 1] == '/' && w[j + 2] == '/' by {
      assert w[j..j + 3] == "://";
    }
    if j < 6 {
      assert w[j] == "about:"[j];
      assert j == 5;
      assert u[0] == w[6] && u[1] == w[7];
      assert u[..2] == "//";
    } else {
      assert w[j..j + 3] == u[j - 6..j - 3];
    }
  }

  /** Unrecognised input navigates when it contains a dot or starts with "about:", and
      otherwise changes nothing. */
  lemma UnknownInput(v: Snapshot, input: string)
    requires Inv(v) && ToLower(SplitOn(Trim(input), ' ')[0]) !in BrowserCommands
    ensures CommandView(v, input) ==
      if Contains(input, ".") || StartsWith(input, "about:") then NavigateView(v, input) else v
  {
  }

  /** The command word is lower-cased as `toLowerCase` does, the Kelvin sign included: "BAC"
      followed by U+212A goes back. */
  lemma KelvinSignBack(v: Snapshot)
    requires Inv(v)
    ensures CommandView(v, "BAC\U{212A}") == BackView(v)
  {
    var w := "BAC\U{212A}";
    assert Trim(w) == w;
    SplitNoSeparator(w, ' ');
    assert ToLower(w) == "back";
  }

  /** Every command keeps the invariant. */
  lemma CommandKeepsInv(v: Snapshot, input: string)
    requires Inv(v)
    ensures Inv(CommandView(v, input))
  {
    var parts := SplitOn(Trim(input), ' ');
    DispatchKeepsInv(v, ToLower(parts[0]), Join(parts[1..], " "), input);
  }

  lemma DispatchKeepsInv(v: Snapshot, command: string, args: string, input: string)
    requires Inv(v)
    ensures Inv(Dispatch(v, command, args, input))
  {
    if command == "go" {
      NavigateKeepsInv(v, args);
    } else if command == "back" || command == "forward" {
      BackForwardKeepInv(v);
    } else if command == "home" {
      NavigateKeepsInv(v, "about:home");
    } else if command == "bookmarks" {
      NavigateKeepsInv(v, "about:bookmarks");
    } else if command == "addbookmark" {
      BookmarkKeepsInv(v);
    } else if command == "history" {
      NavigateKeepsInv(v, "about:history");
    } else if command == "downloads" {
      NavigateKeepsInv(v, "about:downloads");
    } else if command == "settings" {
      NavigateKeepsInv(v, "about:settings");
    } else {
      NavigateKeepsInv(v, input);
    }
  }


}
