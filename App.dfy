/** The application shell: the active tab, the mobile menu, the
    `switchTab` custom-event reducer, the tab-to-sections mapping, and
    which background effects the easter-egg toggles show. The 100 ms
    delayed `openArticle` event is recorded as a request in emission order;
    nothing in the application listens for it. */
module App {
  import opened Wrappers
  import EasterEggs

  const Home := "home"

  /** The page sections the `main` element can hold. */
  datatype Section = Hero | Experience | FeaturedBlog | Projects | Blog | Contact

  /** The background layers drawn behind the page. */
  datatype Layer = MatrixRain | Particles | Grid

  /** The `detail` of a `switchTab` event: a string, an object with
      optional `tab` and `slug` string fields, or anything else (null,
      undefined, a number, a boolean). */
  datatype Detail = TabName(name: string) | Payload(tab: Option<string>, slug: Option<string>) | NoDetail

  datatype ShellState = ShellState(activeTab: string, menuOpen: bool, articleRequests: seq<string>)

  /** The shell opens on the home tab with the menu closed. */
  function Initial(): (s: ShellState)
    ensures s.activeTab == Home && !s.menuOpen && s.articleRequests == []
  {
    ShellState(Home, false, [])
  }

  /** JavaScript truthiness of an optional string field. */
  predicate Truthy(v: Option<string>)
  {
    v.Some? && v.value != ""
  }

  /** `switchTab`: select the tab and close the menu. */
  function SwitchTab(s: ShellState, tab: string): ShellState
  {
    s.(activeTab := tab, menuOpen := false)
  }

  /** The `switchTab` event listener. */
  function OnSwitchTabEvent(s: ShellState, d: Detail): ShellState
  {
    match d
    case TabName(name) => SwitchTab(s, name)
    case Payload(tab, slug) =>
      if Truthy(tab) then
        var s1 := SwitchTab(s, tab.value);
        if Truthy(slug) then s1.(articleRequests := s1.articleRequests + [slug.value]) else s1
      else s
    case NoDetail => s
  }

  /** The menu button. */
  function ToggleMenu(s: ShellState): ShellState
  {
    s.(menuOpen := !s.menuOpen)
  }

  /** The document `mousedown` listener: a press outside both the menu and
      its button closes the menu. */
  function MouseDown(s: ShellState, inMenu: bool, inButton: bool): ShellState
  {
    if !inMenu && !inButton then s.(menuOpen := false) else s
  }

  /** The children of `main` for a tab. */
  function Sections(tab: string): seq<Section>
  {
    if tab == Home then [Hero, Experience, FeaturedBlog, Projects, Contact]
    else if tab == "projects" then [Projects]
    else if tab == "blog" then [Blog]
    else if tab == "experience" then [Experience]
    else if tab == "contact" then [Contact]
    else []
  }

  /** The layers drawn for a set of toggles. */
  function Layers(t: EasterEggs.Toggles): set<Layer>
  {
    (if t.matrix then {MatrixRain} else {}) + (if t.particles then {Particles} else {})
    + (if t.grid then {Grid} else {})
  }

  /** `switchTab` lands on the requested tab with the menu closed, records
      no article request, and doing it twice is the same as doing it once. */
  lemma SwitchTabLands(s: ShellState, tab: string)
    ensures SwitchTab(s, tab).activeTab == tab && !SwitchTab(s, tab).menuOpen
    ensures SwitchTab(s, tab).articleRequests == s.articleRequests
    ensures SwitchTab(SwitchTab(s, tab), tab) == SwitchTab(s, tab)
  {
  }

  /** A string detail becomes the active tab, whatever the string is, even
      one no section answers to. */
  lemma StringDetailSwitches(s: ShellState, name: string)
    ensures OnSwitchTabEvent(s, TabName(name)).activeTab == name
    ensures !OnSwitchTabEvent(s, TabName(name)).menuOpen
    ensures OnSwitchTabEvent(s, TabName(name)).articleRequests == s.articleRequests
  {
  }

  /** An object detail with a truthy `tab` switches to it and requests
      exactly one article, the `slug`, if and only if the slug is truthy. */
  lemma PayloadSwitchesAndRequests(s: ShellState, tab: Option<string>, slug: Option<string>)
    requires Truthy(tab)
    ensures OnSwitchTabEvent(s, Payload(tab, slug)).activeTab == tab.value
    ensures !OnSwitchTabEvent(s, Payload(tab, slug)).menuOpen
    ensures Truthy(slug) ==> OnSwitchTabEvent(s, Payload(tab, slug)).articleRequests == s.articleRequests + [slug.value]
    ensures !Truthy(slug) ==> OnSwitchTabEvent(s, Payload(tab, slug)).articleRequests == s.articleRequests
  {
  }

  /** Any other detail changes nothing. */
  lemma OtherDetailIgnored(s: ShellState, d: Detail)
    requires d.NoDetail? || (d.Payload? && !Truthy(d.tab))
    ensures OnSwitchTabEvent(s, d) == s
  {
  }

  /** Events only ever add article requests, one at most per event, at the
      end. */
  lemma RequestsOnlyGrow(s: ShellState, d: Detail)
    ensures var r := OnSwitchTabEvent(s, d).articleRequests;
            |s.articleRequests| <= |r| <= |s.articleRequests| + 1 && r[..|s.articleRequests|] == s.articleRequests
  {
  }

  /** The menu button negates the menu flag, so two presses restore it; a
      press outside closes it and one inside leaves it as it was. */
  lemma MenuHandlers(s: ShellState, inMenu: bool, inButton: bool)
    ensures ToggleMenu(s).menuOpen == !s.menuOpen && ToggleMenu(ToggleMenu(s)) == s
    ensures !inMenu && !inButton ==> !MouseDown(s, inMenu, inButton).menuOpen
    ensures inMenu || inButton ==> MouseDown(s, inMenu, inButton) == s
    ensures MouseDown(s, inMenu, inButton).activeTab == s.activeTab
  {
  }

  /** `home` shows five sections in page order; the four other known tabs
      each show exactly their own section; any other tab shows nothing. */
  lemma SectionsByTab(tab: string)
    ensures tab == Home ==> Sections(tab) == [Hero, Experience, FeaturedBlog, Projects, Contact]
    ensures tab == "projects" ==> Sections(tab) == [Projects]
    ensures tab == "blog" ==> Sections(tab) == [Blog]
    ensures tab == "experience" ==> Sections(tab) == [Experience]
    ensures tab == "contact" ==> Sections(tab) == [Contact]
    ensures tab !in {Home, "projects", "blog", "experience", "contact"} ==> Sections(tab) == []
  {
  }

  /** The blog listing is on the page exactly on the `blog` tab; the
      featured post only on `home`. */
  lemma BlogShownOnlyOnBlogTab(tab: string)
    ensures Blog in Sections(tab) <==> tab == "blog"
    ensures FeaturedBlog in Sections(tab) <==> tab == Home
  {
  }

  /** Each layer is drawn exactly when its toggle is on. */
  lemma LayersFollowToggles(t: EasterEggs.Toggles)
    ensures MatrixRain in Layers(t) <==> t.matrix
    ensures Particles in Layers(t) <==> t.particles
    ensures Grid in Layers(t) <==> t.grid
  {
  }

  /** The `m` hotkey hides the matrix rain when it is shown and shows it
      when it is hidden, and leaves the other layers as they were. */
  lemma MatrixHotkeyFlipsLayer(s: EasterEggs.EggState)
    ensures MatrixRain in Layers(EasterEggs.OnKey(s, "m").toggles) <==> MatrixRain !in Layers(s.toggles)
    ensures Particles in Layers(EasterEggs.OnKey(s, "m").toggles) <==> Particles in Layers(s.toggles)
    ensures Grid in Layers(EasterEggs.OnKey(s, "m").toggles) <==> Grid in Layers(s.toggles)
  {
    EasterEggs.ShortcutFlipsOne(s.toggles, "m");
    var t := EasterEggs.OnKey(s, "m").toggles;
    assert t.matrix == !s.toggles.matrix && t.particles == s.toggles.particles && t.grid == s.toggles.grid;
    LayersFollowToggles(t);
    LayersFollowToggles(s.toggles);
  }

  /** The shell component's state cells. */
  class Shell {
    var activeTab: string
    var mobileMenuOpen: bool
    var articleRequests: seq<string>

    function State(): ShellState
      reads this
    {
      ShellState(activeTab, mobileMenuOpen, articleRequests)
    }

    constructor ()
      ensures State() == Initial()
    {
      activeTab, mobileMenuOpen, articleRequests := Home, false, [];
    }

    method SwitchTo(tab: string)
      modifies this
      ensures State() == SwitchTab(old(State()), tab)
    {
      activeTab := tab;
      mobileMenuOpen := false;
    }

    method HandleTabSwitch(d: Detail)
      modifies this
      ensures State() == OnSwitchTabEvent(old(State()), d)
    {
      match d {
        case TabName(name) =>
          SwitchTo(name);
        case Payload(tab, slug) =>
          if Truthy(tab) {
            SwitchTo(tab.value);
            if Truthy(slug) {
              articleRequests := articleRequests + [slug.value];
            }
          }
        case NoDetail =>
      }
    }

    method MenuButton()
      modifies this
      ensures State() == ToggleMenu(old(State()))
    {
      mobileMenuOpen := !mobileMenuOpen;
    }

    method HandleClickOutside(inMenu: bool, inButton: bool)
      modifies this
      ensures State() == MouseDown(old(State()), inMenu, inButton)
    {
      if !inMenu && !inButton {
        mobileMenuOpen := false;
      }
    }
  }
}
