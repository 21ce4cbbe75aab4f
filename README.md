# Portfolio application state, modelled in Dafny

The portfolio site is a single React component tree (`src/App.jsx`). Nearly all of it is markup. Its state is a
small controller, and this project models that controller:

- **Portfolio store** (`store.dfy`, module `Store`). It holds three insertion-ordered sections: works,
  certifications and blog. The pure updaters that the handlers pass to `setPortfolioData` are functions:
  - `Normalize` is the `map` that copies `_id` into `id`.
  - `LoadResult` replaces all three sections in one step, or gives nothing when a step of the `try` block throws.
  - `AfterAdd` appends the item the server returned. A `null` reply is the exception: the updater itself throws
    when React runs it at render, and App unmounts.
  - `AfterDelete` / `Without` apply the `filter` on `id`.
- **Wire values** (`wire.dfy`, module `Wire`). A record is a map from field name to `Str(text)`, `Undefined`,
  or `Other(json)`, an opaque non-string JSON value. The body of a response is what `response.json()` yields. A `fetch` outcome is `Rejected` or `Resolved(status, body)`.
  The network is not modelled: every handler takes the outcome as a parameter.
- **Page routing and theme** (`router.dfy`, module `Router`). `RenderPage` applies the loading gate, then the
  admin/login split, then the switch with its `home` fallback. `NextTheme` is the updater of `toggleTheme`.
- **Login check** (`auth.dfy`, module `Auth`). It compares the password with the constant shipped in the page. It
  is a gate in the UI, not access control.
- **Admin form** (`admin_form.dfy`, module `AdminForm`). `Blank` is the `reduce` that builds the all-empty form.
  The class `AdminSection` holds `formData`: its input change updates one key, and its submit hands the record on
  and resets the form.
- **App component** (`app.dfy`, module `Application`). The class `App` has one field per `useState` hook and one
  method per handler: mount and `fetchData`, `toggleTheme`, login, logout, navigation, the menu toggle, and the
  admin panel's `handleAddItem`/`handleDeleteItem`. Each handler method is specified by the store's functions. The
  class `LoginPage` holds the login form.

Behaviour this model keeps from the code:

- Add and delete change the store only when the `fetch` resolves. A rejection goes to `catch` and skips the
  update.
- The HTTP status is never inspected (`StatusIgnored`). A resolved delete removes the item locally even when the
  server answered with an error. A resolved add whose body is an error object appends that object, with
  `id` undefined.
- A resolved add whose body is `null` is not caught. `savedItem._id` is read inside the updater passed to
  `setPortfolioData`. React runs that updater while rendering App, outside the `try`. The render error has no
  error boundary, so the whole tree unmounts. `App.crashed` records this, and `CurrentView` is then `None`.
- A delete whose `fetch` is *rejected* (network failure) does **not** remove the item. The code awaits the
  `fetch` before filtering, so the rejection skips the filter. One might expect a failed remote deletion to
  remove the item anyway. That holds for a server error, because the fetch resolves, but not for a network
  failure.
- A load fails as a whole when one of the arrays holds a `null` element, because the `.map` callback throws
  on it inside the `try`.
- Items without `_id` all get `id` undefined. Deleting `undefined` removes all of them, because
  `undefined !== undefined` is false.
- The `required` attribute on the inputs means the browser does not submit a form with an empty field. The
  submit methods model this as a guard that changes nothing.

## Model

| member | source | states |
|---|---|---|
| `Wire.WithId` | src/App.jsx:65-67 | the stored record keeps every fetched field, gains key `id`, and `id` reads as the fetched `_id` |
| `Store.Portfolio.Put` | src/App.jsx:151-153 | replacing one section leaves the other two sections unchanged |
| `Store.Normalize` | src/App.jsx:65-67 | the mapped section has the fetched array's length and order, and element i is the fetched element i with `id := _id` |
| `Store.ArrayOf` | src/App.jsx:61-65 | defines which `.json()` bodies have `.map` (a resolved JSON array, giving its elements); its effect on a load is stated by `Store.LoadSection` |
| `Store.Objects` | src/App.jsx:65-67 | the `.map` callback succeeds iff no element is `null`; then there is one object per element, in order, each the element's spread |
| `Store.LoadResult` | src/App.jsx:55-71 | a load gives a new store iff every section's fetch succeeds; then every section is the normalised records of its own fetch |
| `Store.LoadSection` | src/App.jsx:55-71 | a load succeeds iff every fetch yields an array with no `null` element; then each section has its array's length, object element i keeps its fields and gets `id` equal to its `_id`, and a scalar element becomes `{id: undefined}` |
| `Store.SavingOf` | src/App.jsx:143-157 | a rejected POST or a non-JSON body is caught; a `null` body throws inside the updater; an object body yields the object with `id := _id`; a scalar body yields `{id: undefined}` |
| `Store.AfterAdd` | src/App.jsx:143-157 | caught errors leave the store unchanged; a `null` body gives a render error; a saved item makes the section grow by one, with the old items as an unchanged prefix and the saved item last; the other sections are always unchanged |
| `Store.AddKeepsFields` | src/App.jsx:150-154 | an object returned by the server is appended with all of its fields and with `id` equal to its `_id` |
| `Store.Without` | src/App.jsx:165 | the filtered section is no longer than before, and each survivor is an old item whose `id` differs from the argument |
| `Store.WithoutKeeps` | src/App.jsx:165 | an item survives the filter iff it was in the section and its `id` differs (both directions) |
| `Store.WithoutCount` | src/App.jsx:165 | the filter removes exactly as many items as carry the id |
| `Store.WithoutAppend` | src/App.jsx:165 | filtering distributes over concatenation, so survivors keep their relative order |
| `Store.WithoutSingle` | src/App.jsx:165 | a single item is kept iff its `id` differs; with `WithoutAppend` this fixes the filter on every sequence |
| `Store.WithoutAbsent` | src/App.jsx:165 | deleting an id no item carries leaves the section unchanged |
| `Store.WithoutIdempotent` | src/App.jsx:165 | deleting the same id twice equals deleting it once |
| `Store.AfterDelete` | src/App.jsx:160-169 | a rejected fetch changes nothing; a resolved one (any status, any body) makes the section the `Without` filter of the old one, that is, exactly the old items whose `id` differs; the other sections are unchanged |
| `Store.AddThenDelete` | src/App.jsx:143-169 | deleting the id of an item just added, when no other item of the section had that id, restores the store |
| `Store.StatusIgnored` | src/App.jsx:143-169 | add and delete give the same store for two responses that differ only in HTTP status |
| `Router.RenderPage` | src/App.jsx:90-108 | loading view iff loading; admin panel iff not loading, page `admin` and authenticated (showing the store); login view iff not loading, page `admin` and not authenticated; each section's page shows that section; `about` and `contact` show their pages; home for `home` and every unknown page id |
| `Router.NextTheme` | src/App.jsx:82 | the next theme is always `dark` or `light`, and it is `light` iff the current theme is `dark` |
| `Router.ToggleTwice` | src/App.jsx:82 | toggling twice from `dark` or `light` returns to it |
| `Auth.Check` | src/App.jsx:197 | the login is granted iff the password equals `password123`; a denial carries a non-empty message |
| `Auth.ErrorAfter` | src/App.jsx:197 | the form's error is cleared iff the password is accepted |
| `AdminForm.Blank` | src/App.jsx:198 | the `reduce` adds every declared field with value `''` and keeps the accumulator's other keys |
| `AdminForm.EmptyForm` | src/App.jsx:198 | the initial and reset form has exactly the declared field names as keys, all mapped to `''` |
| `AdminForm.FieldsOf` | src/App.jsx:199-201 | each section's form declares four distinct field names, none of them `id` or `_id` |
| `AdminForm.Filled` | src/App.jsx:198 | a form the browser lets submit (every `required` field non-empty) holds every declared field |
| `AdminForm.ResetBlocksResubmit` | src/App.jsx:198 | a freshly reset form with at least one field cannot be submitted again until something is typed |
| `AdminForm.ToItem` | src/App.jsx:145-149 | the POST body has the form's keys, each with the typed text |
| `AdminForm.SubmittedFieldsSurvive` | src/App.jsx:143-157 | when the server echoes the submitted fields with an `_id`, the appended item has every submitted field verbatim and `id` equal to that `_id` |
| `AdminForm.SectionSubmissionSurvives` | src/App.jsx:143-157 | a form keyed by a section's declared fields (`FieldsOf`) has no `id` or `_id` key, so the guarantee of `SubmittedFieldsSurvive` holds for every form the admin panel submits |
| `AdminForm.AdminSection.constructor` | src/App.jsx:198 | the form starts with every declared field empty |
| `AdminForm.AdminSection.HandleInputChange` | src/App.jsx:198 | only the named key changes; the key set stays the declared field names |
| `AdminForm.AdminSection.HandleSubmit` | src/App.jsx:198 | a submit the browser allows hands `onAdd` the pre-reset form and resets every field to `''`; otherwise nothing happens; the key set stays the declared field names |
| `Application.BackendConfigured` | src/App.jsx:74 | defines the mount effect's guard (neither empty nor the placeholder); its effect is stated by `Application.NoBackendStaysEmpty`, `Application.ShippedBackendIsConfigured` and `Application.App.Mount` |
| `Application.Loaded` | src/App.jsx:74-78 | without a configured address, or when the load throws, the store is as before; otherwise every section is the normalised records of its fetch |
| `Application.ShippedBackendIsConfigured` | src/App.jsx:7 | the shipped backend address counts as configured |
| `Application.NoBackendStaysEmpty` | src/App.jsx:74-78 | with an empty or placeholder address no load happens and the sections stay empty |
| `Application.LoadIdempotent` | src/App.jsx:52-78 | loading twice from an unchanged backend gives the state of loading once |
| `Application.App.constructor` | src/App.jsx:44-49 | page `home`, menu closed, theme `dark`, empty store, loading, not authenticated, mounted |
| `Application.App.Mount` | src/App.jsx:74-78 | afterwards the app is not loading, and the store is loaded only when a backend is configured |
| `Application.App.FetchData` | src/App.jsx:53-73 | afterwards the app is not loading; the store is replaced on success and unchanged when a step throws |
| `Application.App.ToggleTheme` | src/App.jsx:82 | the theme becomes `NextTheme` of the old theme; nothing else changes |
| `Application.App.HandleLogin` | src/App.jsx:83 | the app becomes authenticated; nothing else changes |
| `Application.App.HandleLogout` | src/App.jsx:84 | not authenticated, page `home`, and, while mounted, the home view is shown once loading is over |
| `Application.App.Navigate` | src/App.jsx:118-120 | the active page becomes the clicked id; nothing else changes |
| `Application.App.ToggleMenu` | src/App.jsx:123 | the mobile menu flips between open and closed |
| `Application.App.NavigateFromMenu` | src/App.jsx:128 | the active page becomes the clicked id and the menu closes |
| `Application.App.HandleAddItem` | src/App.jsx:143-157 | an appended result becomes the new store; a caught error changes nothing; a `null` body leaves the store and marks the tree unmounted |
| `Application.App.HandleDeleteItem` | src/App.jsx:160-169 | the store becomes `AfterDelete` of the old store; after a resolved fetch no item of the section carries the id |
| `Application.App.CurrentView` | src/App.jsx:90-108 | no view once unmounted; otherwise the loading view iff loading, and the admin panel only when authenticated, showing the current store |
| `Application.LoginPage.constructor` | src/App.jsx:197 | the password and the error start empty |
| `Application.LoginPage.SetPassword` | src/App.jsx:197 | the typed text becomes the password |
| `Application.LoginPage.HandleSubmit` | src/App.jsx:197 | an empty password is not submitted; the correct password clears the error and authenticates; any other password sets the non-empty error and leaves authentication unchanged |

## Left out

- The `fetch` calls, `Promise.all`, JSON parsing and the endpoint URLs. Each handler receives the outcome of its
  requests as a parameter. The time between issuing a request and its completion is not modelled. The loading
  flag is raised and lowered within `FetchData`.
- `Store.SavingOf`: a JSON array returned by a POST spreads into its index keys. The model does not build those
  keys, so it appends only `id: undefined`. A body that is a JSON string is not represented at all.
- `Store.Objects`: string and nested-array elements of a loaded array spread into index keys too. The model
  represents only object, `null`, number and boolean elements.
- `Wire.Value`: non-string field values are opaque and compared by their JSON text. `!==` on two distinct
  objects with equal text would differ. The ids the client compares are strings or `undefined`.
- `Application.App`: once `crashed` is set, the model's other handlers still update fields. React discards
  updates to an unmounted tree. `CurrentView` reports `None` from then on.
- Component lifetimes. LoginPage and AdminSection state is recreated when React remounts them. The admin panel's
  active tab only chooses which AdminSection is shown, so it is not modelled.
- Rendering, styling, animation, the DOM `dark` class toggle, `console.error`, the `alert` edit stub, the
  contact form's timer-driven status, the static profile data, and the labels and input kinds of the form fields.
  None of them changes the modelled state.
- The password check is modelled as a boolean guard only; it says nothing about security.
