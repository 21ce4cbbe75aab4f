/** The App component's state and handlers, the admin panel's add and
    delete handlers (which update App state), and the LoginPage form. Each
    `useState` hook becomes a field; each handler a method. Network outcomes
    are parameters. */
module Application {
  import opened Wire
  import opened Store
  import opened Router
  import opened Auth

  /** The backend address the page ships with. */
  const API_URL := "https://portfolio-backend-km8w.onrender.com/api"

  /** The placeholder address of an unconfigured copy of the page. */
  const PLACEHOLDER_URL := "https://your-service-name.onrender.com/api"

  /** The mount effect only loads when a real backend address is set. */
  predicate BackendConfigured(url: string)
  {
    url != "" && url != PLACEHOLDER_URL
  }

  /** `portfolioData` after the mount effect, starting from `prior`. */
  function Loaded(url: string, fetched: Fetched, prior: Portfolio): (r: Portfolio)
    ensures !BackendConfigured(url) || LoadResult(fetched).None? ==> r == prior
    ensures BackendConfigured(url) && LoadResult(fetched).Some? ==>
      forall t :: r.Get(t) == Normalize(Loadable(fetched.Get(t)).value)
  {
    if BackendConfigured(url) then
      match LoadResult(fetched)
      case Some(p) => p
      case None => prior
    else prior
  }

  lemma ShippedBackendIsConfigured()
    ensures BackendConfigured(API_URL)
  {
  }

  /** Without a configured backend the sections stay at their initial empty
      value. */
  lemma NoBackendStaysEmpty(url: string, fetched: Fetched)
    requires !BackendConfigured(url)
    ensures Loaded(url, fetched, EMPTY) == EMPTY
  {
  }

  /** Loading twice from an unchanged backend gives the state of loading
      once. */
  lemma LoadIdempotent(url: string, fetched: Fetched, prior: Portfolio)
    ensures Loaded(url, fetched, Loaded(url, fetched, prior)) == Loaded(url, fetched, prior)
  {
  }

  class App {
    var activePage: string
    var isMenuOpen: bool
    var theme: string
    var portfolioData: Portfolio
    var isLoading: bool
    var isAdminAuthenticated: bool
    /** Set once an error thrown while rendering App has unmounted the tree,
      which has no error boundary. */
    var crashed: bool

    /** The initial value of every `useState` hook. */
    constructor ()
      ensures activePage == "home" && !isMenuOpen && theme == "dark"
      ensures portfolioData == EMPTY && isLoading && !isAdminAuthenticated && !crashed
    {
      activePage := "home";
      isMenuOpen := false;
      theme := "dark";
      portfolioData := EMPTY;
      isLoading := true;
      isAdminAuthenticated := false;
      crashed := false;
    }

    /** The mount effect: load when a backend is configured, otherwise only
      clear the loading flag. */
    method Mount(apiUrl: string, fetched: Fetched)
      modifies this`portfolioData, this`isLoading
      ensures !isLoading
      ensures portfolioData == Loaded(apiUrl, fetched, old(portfolioData))
    {
      if BackendConfigured(apiUrl) {
        FetchData(fetched);
      } else {
        isLoading := false;
      }
    }

    /** `fetchData`: raise the loading flag, replace all three sections at
      once when every step succeeds, keep them when any step throws, and
      clear the loading flag in both cases. */
    method FetchData(fetched: Fetched)
      modifies this`portfolioData, this`isLoading
      ensures !isLoading
      ensures LoadResult(fetched).Some? ==> portfolioData == LoadResult(fetched).value
      ensures LoadResult(fetched).None? ==> portfolioData == old(portfolioData)
    {
      isLoading := true;
      match LoadResult(fetched) {
        case Some(p) => portfolioData := p;
        case None =>
      }
      isLoading := false;
    }

    /** `toggleTheme` */
    method ToggleTheme()
      modifies this`theme
      ensures theme == NextTheme(old(theme))
    {
      theme := NextTheme(theme);
    }

    /** `handleLogin`, the `onLogin` callback of LoginPage. */
    method HandleLogin()
      modifies this`isAdminAuthenticated
      ensures isAdminAuthenticated
    {
      isAdminAuthenticated := true;
    }

    /** `handleLogout`: leave the admin panel for the home page. */
    method HandleLogout()
      modifies this`isAdminAuthenticated, this`activePage
      ensures !isAdminAuthenticated && activePage == "home"
      ensures !crashed ==> CurrentView() == Some(if isLoading then Loading else Home)
    {
      isAdminAuthenticated := false;
      activePage := "home";
    }

    /** A navigation button or the logo: `setActivePage(id)`. */
    method Navigate(page: string)
      modifies this`activePage
      ensures activePage == page
    {
      activePage := page;
    }

    /** The mobile menu button: `setIsMenuOpen(!isMenuOpen)`. */
    method ToggleMenu()
      modifies this`isMenuOpen
      ensures isMenuOpen == !old(isMenuOpen)
    {
      isMenuOpen := !isMenuOpen;
    }

    /** A link of the mobile menu: navigate and close the menu. */
    method NavigateFromMenu(page: string)
      modifies this`activePage, this`isMenuOpen
      ensures activePage == page && !isMenuOpen
    {
      activePage := page;
      isMenuOpen := false;
    }

    /** `handleAddItem(section, newItemData)` of AdminPage, once the POST
      has completed with outcome `f`: append the saved item; change nothing
      when a step of the `try` throws; unmount the tree when the updater
      throws at render. */
    method HandleAddItem(s: Section, f: Fetch)
      modifies this`portfolioData, this`crashed
      ensures AfterAdd(old(portfolioData), s, f).Appended? ==>
        portfolioData == AfterAdd(old(portfolioData), s, f).data && crashed == old(crashed)
      ensures AfterAdd(old(portfolioData), s, f) == Unchanged ==>
        portfolioData == old(portfolioData) && crashed == old(crashed)
      ensures AfterAdd(old(portfolioData), s, f) == RenderError ==>
        portfolioData == old(portfolioData) && crashed
    {
      match SavingOf(f) {
        case Saved(item) => portfolioData := portfolioData.Put(s, portfolioData.Get(s) + [item]);
        case NullSaved => crashed := true;
        case Caught =>
      }
    }

    /** `handleDeleteItem(section, id)` of AdminPage, once the DELETE has
      completed with outcome `f`: any resolved response drops the id from
      the section; a rejected fetch changes nothing. */
    method HandleDeleteItem(s: Section, id: Value, f: Fetch)
      modifies this`portfolioData
      ensures portfolioData == AfterDelete(old(portfolioData), s, id, f)
      ensures f.Resolved? ==> forall x :: x in portfolioData.Get(s) ==> Field(x, "id") != id
    {
      if f.Resolved? {
        WithoutKeepsAll(portfolioData.Get(s), id);
        portfolioData := portfolioData.Put(s, Without(portfolioData.Get(s), id));
      }
    }

    /** `renderPage()` on the current state, or None once the tree is
      unmounted. */
    function CurrentView(): (v: Option<View>)
      reads this
      ensures v.None? <==> crashed
      ensures v.Some? ==> (v.value == Loading <==> isLoading)
      ensures v.Some? && v.value.AdminPanel? ==> isAdminAuthenticated && v.value.data == portfolioData
    {
      if crashed then None
      else Some(RenderPage(isLoading, activePage, isAdminAuthenticated, portfolioData))
    }
  }

  /** The LoginPage component's form state. */
  class LoginPage {
    var password: string
    var error: string

    constructor ()
      ensures password == "" && error == ""
    {
      password := "";
      error := "";
    }

    /** The password input's `onChange`. */
    method SetPassword(value: string)
      modifies this`password
      ensures password == value
    {
      password := value;
    }

    /** `handleSubmit`: the `required` input keeps the browser from
      submitting an empty password; otherwise the correct password clears
      the error and calls `onLogin`, and any other one sets the error and
      leaves authentication as it was. */
    method HandleSubmit(app: App)
      modifies this`error, app`isAdminAuthenticated
      ensures password == "" ==> error == old(error) && app.isAdminAuthenticated == old(app.isAdminAuthenticated)
      ensures password != "" && password == ADMIN_PASSWORD ==> error == "" && app.isAdminAuthenticated
      ensures password != "" && password != ADMIN_PASSWORD ==>
        error == INCORRECT_PASSWORD && app.isAdminAuthenticated == old(app.isAdminAuthenticated)
    {
      if password != "" {
        error := ErrorAfter(password);
        if Check(password) == Granted {
          app.HandleLogin();
        }
      }
    }
  }

  /** A load that yields one work titled "X": the works page shows it. */
  method LoadScenario()
  {
    var app := new App();
    var a: Item := map["_id" := Str("a"), "title" := Str("X")];
    app.Mount(API_URL, Fetched(Resolved(Response(200, Array([Entry(a)]))),
                               Resolved(Response(200, Array([]))),
                               Resolved(Response(200, Array([])))));
    assert app.portfolioData.works == [WithId(a)];
    assert Field(app.portfolioData.works[0], "title") == Str("X");
    app.Navigate("works");
    assert app.CurrentView() == Some(WorksPage([WithId(a)]));
  }

  /** An add the backend answers with `_id` "99", then a delete whose fetch
      is rejected (nothing changes) and one answered with an error status
      (the item goes anyway); last an add answered with `null`, which
      unmounts the tree. */
  method EditScenario(app: App, status: int)
    modifies app
  {
    app.portfolioData := EMPTY;
    var post: Item := map["_id" := Str("99"), "title" := Str("T")];
    assert SavingOf(Resolved(Response(status, Object(post)))) == Saved(WithId(post));
    app.HandleAddItem(Blog, Resolved(Response(status, Object(post))));
    assert |app.portfolioData.blog| == 1 && Field(app.portfolioData.blog[0], "id") == Str("99");
    app.HandleDeleteItem(Blog, Str("99"), Rejected);
    assert |app.portfolioData.blog| == 1;
    app.HandleDeleteItem(Blog, Str("99"), Resolved(Response(500, Unparseable)));
    assert app.portfolioData.blog == [];
    app.HandleAddItem(Blog, Resolved(Response(201, Null)));
    assert app.crashed && app.CurrentView() == None;
  }

  /** Logging in through the admin page and out again. */
  method LoginScenario()
  {
    var app := new App();
    app.Mount("", Fetched(Rejected, Rejected, Rejected));
    assert app.portfolioData == EMPTY;
    app.Navigate("admin");
    assert app.CurrentView() == Some(Login);
    var login := new LoginPage();
    login.SetPassword("password123");
    login.HandleSubmit(app);
    assert app.CurrentView() == Some(AdminPanel(EMPTY));
    app.HandleLogout();
    assert app.CurrentView() == Some(Home);
  }
}
