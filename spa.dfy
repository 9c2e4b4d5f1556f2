/** The in-app page-transition engine of spa.js: click interception, the `loadPage`
    pipeline (fetch outcome, unmount, swap, script reconciliation, inline scripts,
    active-link update, routing to a controller, history) and the popstate handler.

    The live document is a `Window` object whose fields the pipeline reassigns; its
    `Snapshot()` is the record `Doc`, and `Transition` says what one call of `loadPage`
    makes of it. Controllers are reached only through the window-level hooks their
    scripts register; what a controller does when called is recorded as an `Event`. */
module Spa {
  import opened Strings
  import opened Nav

  /** Window-level functions: `mountApp`/`unmountApp` (script.js), `mountDashboard`/
      `unmountDashboard` (dashboard.js) and `setActiveNav` (nav.js). */
  datatype Hook = AppHooks | DashboardHooks | NavHook

  /** What the engine caused, in order. Inline script bodies are opaque: only that each
      ran, and in which order, is recorded. */
  datatype Event =
    | AppUnmounted
    | DashboardUnmounted
    | ScriptLoaded(src: string)
    | InlineRan(code: string)
    | NavHighlighted(path: string)
    | AppMounted
    | DashboardMounted
    | NativeNavigation(url: string)

  /** The parts of a fetched page the engine reads: `<main>`, the text of `<title>`, the
      inner HTML of `.app-title` and `.subtitle`, and, in document order, the `src` of every
      `script[src]` and the text of every other script OUTSIDE the fetched `<main>`. The
      scripts inside it have already moved into the live document with the swap when the
      engine queries the fetched page, so they are neither loaded nor run, and they are not
      modelled. */
  datatype Page = Page(
    main: Option<string>,
    title: Option<string>,
    headerTitle: Option<string>,
    subtitle: Option<string>,
    scripts: seq<string>,
    inline: seq<string>)

  /** The outcome of `fetch(url)` followed by `res.text()` and parsing. */
  datatype Fetch = NetworkError | NotOk | Fetched(page: Page)

  /** The live document and window as the engine sees them. `location` is the current URL
      as written by the last `pushState` (the browser's resolution of relative URLs is not
      modelled); `pushed` lists the history entries the engine pushed. `scripts` holds the
      `src` of the live `script[src]` elements outside `<main>`; those inside `<main>`, which
      leave or arrive with the swap, are not modelled. */
  datatype Doc = Doc(
    main: Option<string>,
    title: string,
    headerTitle: Option<string>,
    subtitle: Option<string>,
    scripts: seq<string>,
    hooks: set<Hook>,
    location: string,
    pushed: seq<string>,
    log: seq<Event>)

  datatype Controller = ItemApp | DashboardApp | NoController

  //
  // Routing
  //

  /** The static routing table of `loadPage`, on the page name `setActiveNav` also uses:
      the text after the last `/`, or `index.html` when that text is empty. */
  function Route(url: string): Controller {
    var page := CurrentPage(url);
    if page == [] || page == "index.html" || page == "profile.html" then ItemApp
    else if page == "dashboard.html" then DashboardApp
    else NoController
  }

  /** The page name is the text after the last `/`, or `index.html` when that is empty. */
  lemma PageNameOfPath(dir: string, name: string)
    requires '/' !in name
    ensures CurrentPage(dir + "/" + name) == (if name == [] then "index.html" else name)
    ensures CurrentPage(name) == (if name == [] then "index.html" else name)
  {
    LastPieceAfter(dir, '/', name);
  }

  /** A URL ending in a slash is routed like `index.html`. */
  lemma DirectoryRoutesToItemApp(dir: string)
    ensures Route(dir + "/") == ItemApp
  {
    PageNameOfPath(dir, []);
    assert dir + "/" == dir + "/" + [];
  }

  /** The routing table, stated per page name. */
  lemma RouteTable(dir: string, name: string)
    requires '/' !in name
    ensures Route(dir + "/" + name) == Route(name)
    ensures name == "index.html" || name == "profile.html" || name == [] ==> Route(name) == ItemApp
    ensures name == "dashboard.html" ==> Route(name) == DashboardApp
    ensures name != "index.html" && name != "profile.html" && name != [] && name != "dashboard.html"
            ==> Route(name) == NoController
  {
    PageNameOfPath(dir, name);
  }

  /** The match is exact: a page name of the table followed by anything, such as
      `profile.html#add`, mounts nothing. */
  lemma RouteIsExact(dir: string, name: string, suffix: string)
    requires name == "index.html" || name == "profile.html" || name == "dashboard.html"
    requires suffix != [] && '/' !in suffix
    ensures Route(dir + "/" + name + suffix) == NoController
  {
    var full := name + suffix;
    assert '/' !in name;
    assert dir + "/" + name + suffix == dir + "/" + full;
    RouteTable(dir, full);
    assert full[0] == name[0] && |full| > |name|;
  }

  //
  // Script reconciliation
  //

  /** External scripts of the fetched page that the reconciliation loop appends: each `src`
      not in the live document and not appended earlier in the same loop, in fetched order. */
  function Missing(live: seq<string>, fetched: seq<string>): seq<string>
    decreases |fetched|
  {
    if fetched == [] then []
    else
      var m := Missing(live, fetched[..|fetched| - 1]);
      var src := fetched[|fetched| - 1];
      if src in live || src in m then m else m + [src]
  }

  function Defines(defines: map<string, set<Hook>>, src: string): set<Hook> {
    if src in defines then defines[src] else {}
  }

  /** The hooks that running the scripts `srcs` registers; `defines` says which hooks
      each script file registers when it runs. */
  function HooksDefined(srcs: seq<string>, defines: map<string, set<Hook>>): set<Hook>
    decreases |srcs|
  {
    if srcs == [] then {} else HooksDefined(srcs[..|srcs| - 1], defines) + Defines(defines, srcs[|srcs| - 1])
  }

  function LoadEvents(srcs: seq<string>): (r: seq<Event>)
    decreases |srcs|
  {
    if srcs == [] then [] else LoadEvents(srcs[..|srcs| - 1]) + [ScriptLoaded(srcs[|srcs| - 1])]
  }

  function InlineEvents(codes: seq<string>): (r: seq<Event>)
    decreases |codes|
  {
    if codes == [] then [] else InlineEvents(codes[..|codes| - 1]) + [InlineRan(codes[|codes| - 1])]
  }

  lemma MissingSnoc(live: seq<string>, fetched: seq<string>, i: nat)
    requires i < |fetched|
    ensures var m := Missing(live, fetched[..i]);
            Missing(live, fetched[..i + 1]) == if fetched[i] in live || fetched[i] in m then m else m + [fetched[i]]
  {
    assert fetched[..i + 1][..i] == fetched[..i];
  }

  lemma DefinedSnoc(srcs: seq<string>, src: string, defines: map<string, set<Hook>>)
    ensures HooksDefined(srcs + [src], defines) == HooksDefined(srcs, defines) + Defines(defines, src)
  {
    assert (srcs + [src])[..|srcs|] == srcs;
  }

  lemma LoadSnoc(srcs: seq<string>, src: string)
    ensures LoadEvents(srcs + [src]) == LoadEvents(srcs) + [ScriptLoaded(src)]
  {
    assert (srcs + [src])[..|srcs|] == srcs;
  }

  /** One turn of the reconciliation loop, on values. */
  lemma ReconcileStep(live: seq<string>, hooks: set<Hook>, log: seq<Event>, fetched: seq<string>, i: nat,
                      defines: map<string, set<Hook>>)
    requires i < |fetched|
    ensures var m, src := Missing(live, fetched[..i]), fetched[i];
            if src in live + m then Missing(live, fetched[..i + 1]) == m
            else
              var n := m + [src];
              Missing(live, fetched[..i + 1]) == n && live + m + [src] == live + n
              && hooks + HooksDefined(m, defines) + Defines(defines, src) == hooks + HooksDefined(n, defines)
              && log + LoadEvents(m) + [ScriptLoaded(src)] == log + LoadEvents(n)
  {
    var m, src := Missing(live, fetched[..i]), fetched[i];
    MissingSnoc(live, fetched, i);
    assert src in live + m <==> src in live || src in m;
    DefinedSnoc(m, src, defines);
    LoadSnoc(m, src);
  }

  /** Index of the first occurrence of `x` in `s`. */
  function FirstIndex(s: seq<string>, x: string): (k: nat)
    requires x in s
    ensures k < |s| && s[k] == x && x !in s[..k]
  {
    if s[0] == x then 0 else 1 + FirstIndex(s[1..], x)
  }

  lemma FirstIndexOfPrefix(s: seq<string>, n: nat, x: string)
    requires n <= |s| && x in s[..n]
    ensures FirstIndex(s, x) == FirstIndex(s[..n], x)
    decreases n
  {
    if s[0] != x {
      assert s[..n][1..] == s[1..][..n - 1];
      FirstIndexOfPrefix(s[1..], n - 1, x);
    }
  }

  lemma FirstIndexOfLast(pre: seq<string>, x: string)
    requires x !in pre
    ensures FirstIndex(pre + [x], x) == |pre|
    decreases |pre|
  {
    if pre != [] {
      assert (pre + [x])[1..] == pre[1..] + [x];
      FirstIndexOfLast(pre[1..], x);
    }
  }

  /** What the reconciliation loop appends. Each appended `src` is absent from the live
      document, comes from the fetched page and is appended once; every fetched `src` ends
      up present; and the appended ones keep the order of their first occurrence. */
  lemma {:induction false} MissingSpec(live: seq<string>, fetched: seq<string>)
    ensures forall x :: x in Missing(live, fetched) ==> x !in live && x in fetched
    ensures forall x :: x in fetched ==> x in live || x in Missing(live, fetched)
    ensures forall i, j :: 0 <= i < j < |Missing(live, fetched)| ==>
              Missing(live, fetched)[i] != Missing(live, fetched)[j]
    ensures forall i, j :: 0 <= i < j < |Missing(live, fetched)| ==>
              FirstIndex(fetched, Missing(live, fetched)[i]) < FirstIndex(fetched, Missing(live, fetched)[j])
    decreases |fetched|
  {
    if fetched != [] {
      var n := |fetched| - 1;
      var pre := fetched[..n];
      var m := Missing(live, pre);
      var src := fetched[n];
      MissingSpec(live, pre);
      assert fetched == pre + [src];
      forall x | x in m ensures FirstIndex(fetched, x) == FirstIndex(pre, x) {
        FirstIndexOfPrefix(fetched, n, x);
      }
      if !(src in live || src in m) {
        var m' := m + [src];
        assert src !in pre;
        FirstIndexOfLast(pre, src);
        forall i, j | 0 <= i < j < |m'|
          ensures FirstIndex(fetched, m'[i]) < FirstIndex(fetched, m'[j])
        {
          if j < |m| {
            assert m'[i] == m[i] && m'[j] == m[j];
          } else {
            assert m'[i] == m[i] && m[i] in m;
          }
        }
      }
    }
  }

  lemma CountOfDistinct(m: seq<string>, x: string)
    requires forall i, j :: 0 <= i < j < |m| ==> m[i] != m[j]
    ensures multiset(m)[x] == if x in m then 1 else 0
    decreases |m|
  {
    if m != [] {
      assert m == [m[0]] + m[1..];
      var t := m[1..];
      assert forall i, j :: 0 <= i < j < |t| ==> t[i] != t[j] by {
        forall i, j | 0 <= i < j < |t| ensures t[i] != t[j] {
          assert t[i] == m[i + 1] && t[j] == m[j + 1];
        }
      }
      CountOfDistinct(t, x);
      assert forall k :: 0 <= k < |t| ==> t[k] == m[k + 1] && m[k + 1] != m[0];
    }
  }

  /** After reconciliation the document holds each fetched `src` that was absent exactly
      once, and each `src` it held before as many times as before. */
  lemma ReconciledScriptCounts(live: seq<string>, fetched: seq<string>, x: string)
    ensures x in live ==> multiset(live + Missing(live, fetched))[x] == multiset(live)[x]
    ensures x !in live && x in fetched ==> multiset(live + Missing(live, fetched))[x] == 1
    ensures x !in live && x !in fetched ==> multiset(live + Missing(live, fetched))[x] == 0
  {
    var m := Missing(live, fetched);
    MissingSpec(live, fetched);
    CountOfDistinct(m, x);
    assert multiset(live + m) == multiset(live) + multiset(m);
  }

  //
  // The loadPage pipeline as a function of the document
  //

  /** `location.href = url`: the browser leaves for a full page load. */
  function Fallback(d: Doc, url: string): Doc {
    d.(log := d.log + [NativeNavigation(url)])
  }

  function UnmountEvents(hooks: set<Hook>): seq<Event> {
    (if AppHooks in hooks then [AppUnmounted] else [])
    + (if DashboardHooks in hooks then [DashboardUnmounted] else [])
  }

  /** The mount hook `loadPage` calls for `url`, if the hook exists. */
  function MountEvents(hooks: set<Hook>, url: string): seq<Event> {
    match Route(url)
    case ItemApp => if AppHooks in hooks then [AppMounted] else []
    case DashboardApp => if DashboardHooks in hooks then [DashboardMounted] else []
    case NoController => []
  }

  function NavEvents(d: Doc): seq<Event> {
    if NavHook in d.hooks then [NavHighlighted(d.location)] else []
  }

  /** `<main>` replaced, and the title and header fragments copied where the rules allow. */
  function Swapped(d: Doc, page: Page): Doc
    requires page.main.Some?
  {
    d.(main := page.main,
       title := if page.title.Some? && page.title.value != [] then page.title.value else d.title,
       headerTitle := if page.headerTitle.Some? && d.headerTitle.Some? then page.headerTitle else d.headerTitle,
       subtitle := if page.subtitle.Some? && d.subtitle.Some? then page.subtitle else d.subtitle)
  }

  /** Missing external scripts appended and run, then every inline script run. */
  function ScriptsRun(d: Doc, page: Page, defines: map<string, set<Hook>>): Doc {
    var m := Missing(d.scripts, page.scripts);
    d.(scripts := d.scripts + m,
       hooks := d.hooks + HooksDefined(m, defines),
       log := d.log + LoadEvents(m) + InlineEvents(page.inline))
  }

  /** One call of `loadPage(url, push)`. `mountThrows` says whether the mount hook that gets
      called throws; an exception there reaches the outer `catch`. */
  function Transition(d: Doc, url: string, push: bool, fetched: Fetch,
                      defines: map<string, set<Hook>>, mountThrows: bool): Doc
  {
    match fetched
    case NetworkError => Fallback(d, url)
    case NotOk => Fallback(d, url)
    case Fetched(page) =>
      var d1 := d.(log := d.log + UnmountEvents(d.hooks));
      if page.main.None? then d1
      else if d1.main.None? then Fallback(d1, url)  // `oldMain.replaceWith` on null throws
      else Finish(ScriptsRun(Swapped(d1, page), page, defines), url, push, mountThrows)
  }

  /** The steps after the scripts: `setActiveNav`, the mount hook for `url`, and the push. */
  function Finish(d: Doc, url: string, push: bool, mountThrows: bool): Doc {
    var d3 := d.(log := d.log + NavEvents(d));
    var mounts := MountEvents(d3.hooks, url);
    var d4 := d3.(log := d3.log + mounts);
    if mounts != [] && mountThrows then Fallback(d4, url)
    else if push then d4.(location := url, pushed := d4.pushed + [url])
    else d4
  }

  /** A failed fetch or a non-ok response causes a native navigation to `url` and nothing
      else: no unmount, no swap, no history entry. */
  lemma FailedFetchNavigates(d: Doc, url: string, push: bool, fetched: Fetch,
                             defines: map<string, set<Hook>>, mountThrows: bool)
    requires !fetched.Fetched?
    ensures Transition(d, url, push, fetched, defines, mountThrows)
            == d.(log := d.log + [NativeNavigation(url)])
  {
  }

  /** A fetched page without `<main>` unmounts both controllers and stops: no swap, no mount,
      no history entry and no native-navigation fallback. */
  lemma PageWithoutMain(d: Doc, url: string, push: bool, page: Page,
                        defines: map<string, set<Hook>>, mountThrows: bool)
    requires page.main.None?
    ensures var r := Transition(d, url, push, Fetched(page), defines, mountThrows);
            && r == d.(log := d.log + UnmountEvents(d.hooks))
            && NativeNavigation(url) !in r.log[|d.log|..]
  {
    var r := Transition(d, url, push, Fetched(page), defines, mountThrows);
    assert r.log[|d.log|..] == UnmountEvents(d.hooks);
  }

  /** The order of one successful swap: unmounts, appended scripts, inline scripts,
      the active-link update (seeing the location before the push), the mount, and a native
      navigation only if the mount threw. */
  lemma SwapEventOrder(d: Doc, url: string, push: bool, page: Page,
                       defines: map<string, set<Hook>>, mountThrows: bool)
    requires page.main.Some? && d.main.Some?
    ensures var r := Transition(d, url, push, Fetched(page), defines, mountThrows);
            var m := Missing(d.scripts, page.scripts);
            var hooks := d.hooks + HooksDefined(m, defines);
            var mounts := MountEvents(hooks, url);
            && r.log == d.log + UnmountEvents(d.hooks) + LoadEvents(m) + InlineEvents(page.inline)
                              + (if NavHook in hooks then [NavHighlighted(d.location)] else [])
                              + mounts
                              + (if mounts != [] && mountThrows then [NativeNavigation(url)] else [])
            && r.main == page.main
            && r.scripts == d.scripts + m
  {
  }

  /** Fragment rules: the title changes only to a non-empty fetched title; the header title
      and subtitle are copied only when present in both documents. */
  lemma FragmentRules(d: Doc, url: string, push: bool, page: Page,
                      defines: map<string, set<Hook>>, mountThrows: bool)
    requires page.main.Some? && d.main.Some?
    ensures var r := Transition(d, url, push, Fetched(page), defines, mountThrows);
            && (r.title != d.title ==> page.title == Some(r.title) && r.title != [])
            && (page.title.Some? && page.title.value != [] ==> r.title == page.title.value)
            && r.headerTitle == (if page.headerTitle.Some? && d.headerTitle.Some? then page.headerTitle else d.headerTitle)
            && r.subtitle == (if page.subtitle.Some? && d.subtitle.Some? then page.subtitle else d.subtitle)
  {
  }

  /** History is pushed exactly when `push` is set and the pipeline ran to its end. */
  lemma HistoryRule(d: Doc, url: string, push: bool, fetched: Fetch,
                    defines: map<string, set<Hook>>, mountThrows: bool)
    ensures var r := Transition(d, url, push, fetched, defines, mountThrows);
            r.pushed == d.pushed + [url] || r.pushed == d.pushed
    ensures var r := Transition(d, url, push, fetched, defines, mountThrows);
            r.pushed != d.pushed <==>
              && push && fetched.Fetched? && fetched.page.main.Some? && d.main.Some?
              && !(mountThrows && MountEvents(ScriptsRun(Swapped(d, fetched.page), fetched.page, defines).hooks, url) != [])
  {
  }

  /** A `src` already in the live document (outside `<main>`) is neither duplicated nor
      removed by a transition, and a fetched `src` that was absent is present exactly once
      afterwards. */
  lemma TransitionKeepsScripts(d: Doc, url: string, push: bool, fetched: Fetch,
                               defines: map<string, set<Hook>>, mountThrows: bool, src: string)
    ensures var r := Transition(d, url, push, fetched, defines, mountThrows);
            && d.scripts <= r.scripts
            && (src in d.scripts ==> multiset(r.scripts)[src] == multiset(d.scripts)[src])
    ensures var r := Transition(d, url, push, fetched, defines, mountThrows);
            (fetched.Fetched? && fetched.page.main.Some? && d.main.Some?
             && src !in d.scripts && src in fetched.page.scripts) ==> multiset(r.scripts)[src] == 1
  {
    TransitionScripts(d, url, push, fetched, defines, mountThrows);
    if fetched.Fetched? {
      ReconciledScriptCounts(d.scripts, fetched.page.scripts, src);
    }
  }

  /** The scripts of the document after a transition: the missing ones are appended only
      when `<main>` was swapped. */
  lemma TransitionScripts(d: Doc, url: string, push: bool, fetched: Fetch,
                          defines: map<string, set<Hook>>, mountThrows: bool)
    ensures Transition(d, url, push, fetched, defines, mountThrows).scripts
            == if fetched.Fetched? && fetched.page.main.Some? && d.main.Some?
               then d.scripts + Missing(d.scripts, fetched.page.scripts) else d.scripts
  {
  }

  //
  // Click interception
  //

  /** The target of a click: whether it lies inside a `.nav-link`, and that link's `href`
      attribute if it has one. */
  datatype ClickTarget = OutsideNavLink | InNavLink(href: Option<string>)

  /** The `href` that `loadPage` is called with, or `None` when the browser keeps the click. */
  function Intercept(target: ClickTarget, origin: string): Option<string> {
    match target
    case OutsideNavLink => None
    case InNavLink(href) =>
      if href.None? || href.value == [] then None
      else if StartsWith(href.value, "http") && !StartsWith(href.value, origin) then None
      else Some(href.value)
  }

  /** Interception in both directions: a click is intercepted exactly when it has a
      `.nav-link` ancestor with a non-empty `href` that is not an absolute `http` URL of
      another origin, and then the link's own `href` is what gets loaded. */
  lemma InterceptIff(target: ClickTarget, origin: string)
    ensures Intercept(target, origin).Some? <==>
              && target.InNavLink? && target.href.Some? && target.href.value != []
              && (StartsWith(target.href.value, "http") ==> StartsWith(target.href.value, origin))
    ensures Intercept(target, origin).Some? ==> Intercept(target, origin) == target.href
  {
  }

  /** An absolute `http(s)` URL that does not start with the page's origin is never loaded
      in-app; a non-empty relative link always is. */
  lemma InterceptByOrigin(href: string, origin: string)
    ensures StartsWith(href, "http") && !StartsWith(href, origin) ==> Intercept(InNavLink(Some(href)), origin) == None
    ensures href != [] && !StartsWith(href, "http") ==> Intercept(InNavLink(Some(href)), origin) == Some(href)
  {
  }

  /** The origin test is a textual prefix test: a protocol-relative link to another host
      is intercepted, and so is a host whose name extends the origin's. */
  lemma InterceptIsTextual()
    ensures Intercept(InNavLink(Some("//elsewhere.example/page.html")), "https://findit.example").Some?
    ensures Intercept(InNavLink(Some("https://findit.example.net/x.html")), "https://findit.example").Some?
  {
    assert !StartsWith("//elsewhere.example/page.html", "http") by {
      assert "//elsewhere.example/page.html"[0] != "http"[0];
    }
    assert StartsWith("https://findit.example.net/x.html", "https://findit.example") by {
      assert "https://findit.example.net/x.html"[..22] == "https://findit.example";
    }
  }

  //
  // The live document
  //

  class Window {
    var main: Option<string>
    var title: string
    var headerTitle: Option<string>
    var subtitle: Option<string>
    var scripts: seq<string>
    var hooks: set<Hook>
    var location: string
    var pushed: seq<string>
    var log: seq<Event>

    function Snapshot(): Doc
      reads this
    {
      Doc(main, title, headerTitle, subtitle, scripts, hooks, location, pushed, log)
    }

    constructor (initial: Doc)
      ensures Snapshot() == initial
    {
      main, title, headerTitle, subtitle := initial.main, initial.title, initial.headerTitle, initial.subtitle;
      scripts, hooks, location := initial.scripts, initial.hooks, initial.location;
      pushed, log := initial.pushed, initial.log;
    }

    method NavigateNatively(url: string)
      modifies this`log
      ensures log == old(log) + [NativeNavigation(url)]
    {
      log := log + [NativeNavigation(url)];
    }

    /** The `for` loop over the fetched `script[src]` elements: a `src` that no script of the
        live document carries is appended, and the loop waits for it to load (scripts are taken
        to always load) before looking at the next. */
    method ReconcileScripts(fetched: seq<string>, defines: map<string, set<Hook>>)
      modifies this`scripts, this`hooks, this`log
      ensures scripts == old(scripts) + Missing(old(scripts), fetched)
      ensures hooks == old(hooks) + HooksDefined(Missing(old(scripts), fetched), defines)
      ensures log == old(log) + LoadEvents(Missing(old(scripts), fetched))
    {
      ghost var live0, hooks0, log0 := scripts, hooks, log;
      var live, defined, loaded := scripts, hooks, log;
      ghost var appended: seq<string> := [];
      for i := 0 to |fetched|
        invariant appended == Missing(live0, fetched[..i])
        invariant live == live0 + appended
        invariant defined == hooks0 + HooksDefined(appended, defines)
        invariant loaded == log0 + LoadEvents(appended)
      {
        var src := fetched[i];
        ReconcileStep(live0, hooks0, log0, fetched, i, defines);
        if src !in live {
          live := live + [src];
          defined := defined + Defines(defines, src);
          loaded := loaded + [ScriptLoaded(src)];
          appended := appended + [src];
        }
      }
      assert fetched[..|fetched|] == fetched;
      scripts, hooks, log := live, defined, loaded;
    }

    /** Each inline script of the fetched page is copied into a fresh element, appended
        (which runs it) and removed again, in document order. */
    method RunInlineScripts(codes: seq<string>)
      modifies this`log
      ensures log == old(log) + InlineEvents(codes)
    {
      for i := 0 to |codes|
        invariant log == old(log) + InlineEvents(codes[..i])
      {
        assert codes[..i + 1][..i] == codes[..i];
        log := log + [InlineRan(codes[i])];
      }
      assert codes[..|codes|] == codes;
    }

    /** `loadPage(url, push)`. */
    method LoadPage(url: string, push: bool, fetched: Fetch,
                    defines: map<string, set<Hook>>, mountThrows: bool)
      modifies this
      ensures Snapshot() == Transition(old(Snapshot()), url, push, fetched, defines, mountThrows)
    {
      if !fetched.Fetched? {
        NavigateNatively(url);
        return;
      }
      var page := fetched.page;
      ghost var d0 := Snapshot();
      if AppHooks in hooks { log := log + [AppUnmounted]; }
      if DashboardHooks in hooks { log := log + [DashboardUnmounted]; }
      ghost var d1 := Snapshot();
      assert d1 == d0.(log := d0.log + UnmountEvents(d0.hooks));
      if page.main.None? {
        return;
      }
      if main.None? {
        NavigateNatively(url);
        return;
      }
      SwapFragments(page);
      RunScripts(page, defines);
      assert Snapshot() == ScriptsRun(Swapped(d1, page), page, defines);
      MountAndPush(url, push, mountThrows);
    }

    /** The external scripts reconciled, then the inline scripts run. */
    method RunScripts(page: Page, defines: map<string, set<Hook>>)
      modifies this`scripts, this`hooks, this`log
      ensures Snapshot() == ScriptsRun(old(Snapshot()), page, defines)
    {
      ReconcileScripts(page.scripts, defines);
      RunInlineScripts(page.inline);
    }

    /** `<main>` replaced; title, header title and subtitle updated under their rules. */
    method SwapFragments(page: Page)
      requires page.main.Some?
      modifies this`main, this`title, this`headerTitle, this`subtitle
      ensures Snapshot() == Swapped(old(Snapshot()), page)
    {
      main := page.main;
      if page.title.Some? && page.title.value != [] { title := page.title.value; }
      if page.headerTitle.Some? && headerTitle.Some? { headerTitle := page.headerTitle; }
      if page.subtitle.Some? && subtitle.Some? { subtitle := page.subtitle; }
    }

    /** `setActiveNav`, the mount hook chosen by the page name, and `pushState`. */
    method MountAndPush(url: string, push: bool, mountThrows: bool)
      modifies this`log, this`location, this`pushed
      ensures Snapshot() == Finish(old(Snapshot()), url, push, mountThrows)
    {
      ghost var d0 := Snapshot();
      if NavHook in hooks { log := log + [NavHighlighted(location)]; }
      ghost var highlighted := log;
      assert Snapshot() == d0.(log := d0.log + NavEvents(d0));
      var mounted := false;
      match Route(url) {
        case ItemApp =>
          if AppHooks in hooks { log := log + [AppMounted]; mounted := true; }
        case DashboardApp =>
          if DashboardHooks in hooks { log := log + [DashboardMounted]; mounted := true; }
        case NoController =>
      }
      assert log == highlighted + MountEvents(hooks, url);
      assert mounted == (MountEvents(hooks, url) != []);
      ghost var d4 := Snapshot();
      assert d4 == d0.(log := d0.log + NavEvents(d0) + MountEvents(d0.hooks, url));
      if mounted && mountThrows {
        NavigateNatively(url);
        return;
      }
      if push {
        location := url;
        pushed := pushed + [url];
      }
    }

    /** The document's click listener: an intercepted click is kept from the browser
        (`prevented`) and becomes `loadPage(href)` with `push` set. */
    method OnClick(target: ClickTarget, origin: string, fetched: Fetch,
                   defines: map<string, set<Hook>>, mountThrows: bool) returns (prevented: bool)
      modifies this
      ensures prevented == Intercept(target, origin).Some?
      ensures prevented ==> Snapshot() == Transition(old(Snapshot()), Intercept(target, origin).value, true,
                                                     fetched, defines, mountThrows)
      ensures !prevented ==> Snapshot() == old(Snapshot())
    {
      var href := Intercept(target, origin);
      prevented := href.Some?;
      if prevented {
        LoadPage(href.value, true, fetched, defines, mountThrows);
      }
    }

    /** The popstate listener. The browser has already moved to the history entry whose
        path is `entryPath`; the page named in the entry's state (or that path) is loaded
        without pushing a new entry. */
    method OnPopState(entryPath: string, state: Option<string>, fetched: Fetch,
                      defines: map<string, set<Hook>>, mountThrows: bool)
      modifies this
      ensures var url := if state.Some? && state.value != [] then state.value else entryPath;
              Snapshot() == Transition(old(Snapshot()).(location := entryPath), url, false,
                                       fetched, defines, mountThrows)
      ensures pushed == old(pushed)
    {
      location := entryPath;
      var url := if state.Some? && state.value != [] then state.value else entryPath;
      LoadPage(url, false, fetched, defines, mountThrows);
    }
  }

  /** Going back replays the pipeline without adding a history entry, and the active-link
      update then sees the entry's own path. */
  lemma PopStateSeesEntry(d: Doc, entryPath: string, url: string, page: Page,
                          defines: map<string, set<Hook>>, mountThrows: bool)
    requires page.main.Some? && d.main.Some?
    ensures var r := Transition(d.(location := entryPath), url, false, Fetched(page), defines, mountThrows);
            && r.pushed == d.pushed
            && r.location == entryPath
            && (NavHook in d.hooks ==> NavHighlighted(entryPath) in r.log)
  {
    var d0 := d.(location := entryPath);
    var m := Missing(d0.scripts, page.scripts);
    SwapEventOrder(d0, url, false, page, defines, mountThrows);
    var r := Transition(d0, url, false, Fetched(page), defines, mountThrows);
    if NavHook in d.hooks {
      var pre := d0.log + UnmountEvents(d0.hooks) + LoadEvents(m) + InlineEvents(page.inline);
      assert r.log[|pre|] == NavHighlighted(entryPath);
    }
  }

  /** A forward transition highlights links against the location it starts from: the push
      comes after `setActiveNav`. */
  lemma ForwardHighlightsOldLocation(d: Doc, url: string, page: Page,
                                     defines: map<string, set<Hook>>, mountThrows: bool)
    requires page.main.Some? && d.main.Some? && NavHook in d.hooks
    ensures var r := Transition(d, url, true, Fetched(page), defines, mountThrows);
            NavHighlighted(d.location) in r.log[|d.log|..]
  {
    var m := Missing(d.scripts, page.scripts);
    SwapEventOrder(d, url, true, page, defines, mountThrows);
    var r := Transition(d, url, true, Fetched(page), defines, mountThrows);
    var pre := UnmountEvents(d.hooks) + LoadEvents(m) + InlineEvents(page.inline);
    assert r.log[|d.log|..][|pre|] == NavHighlighted(d.location);
  }
}
