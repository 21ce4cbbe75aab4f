/** Page selection (`renderPage`) and the theme switch of the App component. */
module Router {
  import opened Wire
  import opened Store

  /** The view `renderPage` returns. Views of static content carry no data
      here; the data-driven ones carry the collection they display. */
  datatype View =
    | Loading
    | AdminPanel(data: Portfolio)
    | Login
    | Home
    | About
    | WorksPage(items: seq<Item>)
    | CertificationsPage(items: seq<Item>)
    | BlogPage(items: seq<Item>)
    | Contact

  /** The page ids `renderPage` recognises; every other id shows Home. */
  const KNOWN_PAGES: set<string> := {"admin", "home", "about", "works", "certifications", "blog", "contact"}

  /** The page id of each section's public page. */
  function PageOf(s: Section): string
  {
    match s
    case Works => "works"
    case Certifications => "certifications"
    case Blog => "blog"
  }

  /** The public view of a section showing `items`. */
  function SectionView(s: Section, items: seq<Item>): View
  {
    match s
    case Works => WorksPage(items)
    case Certifications => CertificationsPage(items)
    case Blog => BlogPage(items)
  }

  /** `renderPage`: the loading gate first, then the admin/login split, then
      the switch over page ids with Home as the fallback. */
  function RenderPage(isLoading: bool, activePage: string, authenticated: bool, data: Portfolio): (v: View)
    ensures v == Loading <==> isLoading
    ensures v.AdminPanel? <==> !isLoading && activePage == "admin" && authenticated
    ensures v.AdminPanel? ==> v.data == data
    ensures v == Login <==> !isLoading && activePage == "admin" && !authenticated
    ensures v == Home <==> !isLoading && (activePage == "home" || activePage !in KNOWN_PAGES)
    ensures forall s :: !isLoading && activePage == PageOf(s) ==> v == SectionView(s, data.Get(s))
    ensures !isLoading && activePage == "about" ==> v == About
    ensures !isLoading && activePage == "contact" ==> v == Contact
  {
    if isLoading then Loading
    else if activePage == "admin" then (if authenticated then AdminPanel(data) else Login)
    else match activePage
      case "home" => Home
      case "about" => About
      case "works" => WorksPage(data.works)
      case "certifications" => CertificationsPage(data.certifications)
      case "blog" => BlogPage(data.blog)
      case "contact" => Contact
      case _ => Home
  }

  /** The updater of `toggleTheme`: `dark` becomes `light`, anything else
      becomes `dark`. */
  function NextTheme(theme: string): (r: string)
    ensures r == "dark" || r == "light"
    ensures r == "light" <==> theme == "dark"
  {
    if theme == "dark" then "light" else "dark"
  }

  /** Toggling twice is the identity on the two themes the app produces. */
  lemma ToggleTwice(theme: string)
    requires theme == "dark" || theme == "light"
    ensures NextTheme(NextTheme(theme)) == theme
  {
  }
}
