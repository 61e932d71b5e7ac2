# Portfolio front-end: session, data loaders, admin managers and post formatter

A Dafny model of the client-side logic of a React portfolio site (a public
home page, a project list, a blog, and an admin dashboard behind a login).
The model covers the code that keeps state around server calls:

- **The session.** `authService` keeps the bearer token in
  `localStorage['token']`. `AuthProvider` keeps the signed-in user and
  whether its first session check is still running.
- **The view-data hooks.** `useBlogPosts` and `useProjects` are loaders with
  three states: loading, loaded and failed.
- **The single-post page.** It loads a post by its slug, and
  `formatBlogContent` turns the post's text into HTML.
- **The admin managers.** `BlogManager` and `ProjectManager` each keep a list
  and a create/edit form whose list fields are comma-separated strings.
- **The home page.** It probes the server's health and then loads the
  featured projects.

State that React components update in place is modelled as Dafny classes
with `modifies` clauses:

- `Auth.AuthService` and `Auth.AuthProvider`;
- `Hooks.BlogPostsHook` and `Hooks.ProjectsHook`;
- `BlogAdmin.BlogManager` and `ProjectAdmin.ProjectManager`;
- `BlogPostPage.PostPage` and `HomePage.Home`.

Each awaited server call becomes a parameter of type `Remote.Outcome`. It
holds either the decoded body or the reason the promise was rejected:

- an HTTP status;
- no response;
- a `TypeError` raised while reading a missing field.

Every class records the requests it issued in a `requests` field; `Auth.AuthProvider`
has no such field of its own and records its calls in its service's `requests`. That lets
the contracts state which calls happen: no `/auth/me` without a token,
exactly one write per submit, exactly one reload after a successful write,
and no delete without confirmation.

The pure parts are functions with lemmas:

- **`JsString`** models JavaScript's `trim`, `split` on one character and
  `join`, plus the searches the blog formatter's regular expressions make.
  `trim` strips every ECMAScript WhiteSpace and LineTerminator character.
  Regex `.` matches anything but the four line terminators.
- **`BlogFormat`** models `formatBlogContent`. Each `/g` replacement is a
  left-to-right scan.
- **The admin form transforms.** `DraftOf` and `FormOf` in both managers
  turn a form into the body that is sent, and a record back into a form.

The main results:

- **Comma-list round trip.** A non-empty list of trimmed, comma-free items,
  joined with `", "`, splits and trims back to the same list. The empty
  list comes back as `[""]`.
- **Edit-then-save.** For both managers, saving a record straight after
  editing it sends the record back unchanged, provided its list is already
  normal: at least one item, each trimmed and free of commas. For a
  project its dates must also already be days (no `T`). Under those
  conditions the only changes are a missing featured image or live URL,
  which is sent as `''`, and an empty end date, which is sent as absent.
  Outside them the round trip changes the record:
  - an empty tag or technology list comes back as `[""]`;
  - an item holding a comma comes back as two items, and untrimmed items
    come back trimmed;
  - a project's start and end dates given as full timestamps come back cut
    to the day.
- **Formatter.** The first two replacements remove every newline, so the
  text is never cut into lines: the whole post sits inside one outer
  `<p>…</p>` wrapper, or is empty. Blank lines inside it have become
  `</p><p>`, so that wrapper can hold several paragraphs. Consequences:
  - the first `"# "` opens a heading that runs to the end of the text;
  - `"## x"` becomes `"<p>#<h1>x</h1></p>"`;
  - `"**x**"` and ``"`x`"`` become bold and code spans.
- **Session check.** It asks `/auth/me` only when a token is stored, and
  deletes the token only on a 401. It always ends with loading over.
- **Loaders.**
  - A hook's error is always its one fixed message, and there is no error
    while it is loading.
  - On a failed fetch the previous list and pagination stay.
  - The home page is loading while its status is `checking`. It turns
    `online` as soon as the health probe succeeds, while the featured
    projects are still loading, and turns `offline` if they then fail.

Two behaviours of the code worth noting:

- **Failed session check.** When `/auth/me` fails with anything but a 401,
  `checkAuth` does not touch `user`. It leaves it as it was (null on mount),
  rather than setting it to null.
- **Login without `success`.** `login` and `register` set the user from
  `response.data.user` even when the answer says `success: false` but still
  carries `data`. In that case no token is stored.

## Model

| member | source | states |
|---|---|---|
| JsString.Trim | src/components/admin/BlogManager.tsx:42 | `trim` leaves no leading or trailing white space |
| JsString.TrimEmptyIffBlank | src/components/admin/BlogManager.tsx:42 | `trim` yields `""` exactly for input made of white space only |
| JsString.TrimKeepsTrimmed | src/components/admin/BlogManager.tsx:42 | `trim` keeps a string that has no white space at either end |
| JsString.TrimAddsNothing | src/components/admin/BlogManager.tsx:42 | trimming never brings in a character (used for: no trimmed tag contains a comma) |
| JsString.Split | src/components/admin/BlogManager.tsx:42 | `split(',')` yields at least one piece and no piece contains the separator |
| JsString.JoinSplit | src/components/admin/BlogManager.tsx:42 | joining the pieces of a split with the separator rebuilds the string |
| JsString.SplitWithoutSeparator | src/components/admin/BlogManager.tsx:42 | a string without the separator splits into itself alone |
| JsString.SplitAtSeparator | src/components/admin/BlogManager.tsx:42 | the first separator ends the first piece, and the rest splits on its own |
| JsString.SplitHeadIsPrefix | src/components/admin/ProjectManager.tsx:92-93 | the first piece of a split is the prefix before the first separator |
| JsString.Join | src/components/admin/BlogManager.tsx:72 | `parts.join(delim)`: the items with the delimiter between them; `JoinSplit` and `SplitTrimJoin` state how it undoes a split |
| JsString.TrimEach | src/components/admin/BlogManager.tsx:42 | `.map(tag => tag.trim())`: one piece per piece, each the trimmed piece at the same index |
| JsString.SplitTrim | src/components/admin/BlogManager.tsx:42 | split-and-trim yields at least one piece, each trimmed and comma-free, and `[""]` for blank input |
| JsString.SplitTrimJoin | src/components/admin/BlogManager.tsx:42-72 | a non-empty list of trimmed, comma-free items survives join-with-`", "` then split-and-trim |
| JsString.EmptyListReadsBackAsEmptyItem | src/components/admin/BlogManager.tsx:42-72 | the empty list does not survive: it reads back as `[""]` |
| JsString.LineEnd | src/pages/BlogPost.tsx:146-148 | where regex `.*` must stop: at a line terminator, or at the end |
| JsString.LineEndIsFirst | src/pages/BlogPost.tsx:146-148 | no line terminator comes before that stop, so `.*` stops at the first one |
| JsString.FindMatches | src/pages/BlogPost.tsx:146-151 | a found index is where the pattern occurs |
| JsString.FindIsFirst | src/pages/BlogPost.tsx:146-151 | the index found is the first occurrence, and none is reported only when there is none |
| BlogFormat.ReplaceAll | src/pages/BlogPost.tsx:144-145 | a global one-character replacement whose replacement lacks that character removes it entirely |
| BlogFormat.ReplaceAllAddsOnly | src/pages/BlogPost.tsx:144-145 | a global replacement brings in only characters of the replacement |
| BlogFormat.LineBreaks | src/pages/BlogPost.tsx:144-145 | after the first two replacements no `\n` is left |
| BlogFormat.HeadingRule | src/pages/BlogPost.tsx:146-148 | one heading rule as a left-to-right `/g` scan: where the marker's line closes, the line becomes the heading; elsewhere the character is kept |
| BlogFormat.DelimRule | src/pages/BlogPost.tsx:149-151 | the bold, italic or code rule as a left-to-right `/g` scan: a delimiter pair on one line wraps the text between them |
| BlogFormat.Headings | src/pages/BlogPost.tsx:146-148 | the three heading rules in the order the source applies them |
| BlogFormat.Inline | src/pages/BlogPost.tsx:149-151 | the bold, italic and code rules in the order the source applies them |
| BlogFormat.Marked | src/pages/BlogPost.tsx:144-151 | all eight replacements in order, before the text is cut into lines |
| BlogFormat.Paragraph | src/pages/BlogPost.tsx:153 | a line becomes `""` exactly when it is blank, otherwise itself inside `<p>` and `</p>` |
| BlogFormat.Paragraphs | src/pages/BlogPost.tsx:152-154 | one rendered paragraph per line, each the paragraph of the line at the same index |
| BlogFormat.HeadingMatch | src/pages/BlogPost.tsx:146-148 | a heading pattern matches only where the marker starts the text, and the heading ends inside the text |
| BlogFormat.DelimMatch | src/pages/BlogPost.tsx:149-151 | a bold, italic or code pattern matches only where the delimiter starts the text, and both delimiters fit inside it |
| BlogFormat.HeadingAtMarker | src/pages/BlogPost.tsx:146-148 | a marker at the start of a one-line text makes the rest of the text a heading |
| BlogFormat.HeadingRuleAddsOnly | src/pages/BlogPost.tsx:146-148 | a heading rule brings in only characters of its tags |
| BlogFormat.DelimRuleAddsOnly | src/pages/BlogPost.tsx:149-151 | the bold, italic and code rules bring in only characters of their tags |
| BlogFormat.NoNewlineAfterReplacements | src/pages/BlogPost.tsx:144-151 | no newline is left when the text is split into lines |
| BlogFormat.FormatIsOneParagraph | src/pages/BlogPost.tsx:152-154 | the post becomes `""` when the replaced text is blank, otherwise that untrimmed text inside one `<p>`…`</p>` |
| BlogFormat.FormatBlogContent | src/pages/BlogPost.tsx:141-155 | the HTML is empty or one outer `<p>…</p>` wrapper |
| BlogFormat.FormatBlogContentIs | src/pages/BlogPost.tsx:141-155 | `formatBlogContent` in closed form over the replaced text |
| BlogFormat.HeadingRuleOnOneLine | src/pages/BlogPost.tsx:146-148 | on text without line terminators a heading rule fires at most once: from the first marker to the end of the text |
| BlogFormat.FirstHeadingRunsToEnd | src/pages/BlogPost.tsx:144-146 | in a post without `\r`, U+2028 and U+2029 only the first `"# "` becomes an `<h1>`, running to the end of the text |
| BlogFormat.SecondLevelMarked | src/pages/BlogPost.tsx:144-151 | the replacements turn `"## x"` into `"#<h1>x</h1>"` |
| BlogFormat.SecondLevelHeadingBecomesFirstLevel | src/pages/BlogPost.tsx:146-147 | `"## x"` formats to `"<p>#<h1>x</h1></p>"`: the h1 rule catches it first |
| BlogFormat.BoldMarked | src/pages/BlogPost.tsx:149-151 | the replacements turn `"**x**"` into `"<strong>x</strong>"` |
| BlogFormat.BoldSpan | src/pages/BlogPost.tsx:149 | `"**x**"` formats to `"<p><strong>x</strong></p>"` |
| BlogFormat.DelimAround | src/pages/BlogPost.tsx:149-151 | a delimiter pair around one line of text becomes the open and close tags around it |
| BlogFormat.CodeSpan | src/pages/BlogPost.tsx:151 | ``"`x`"`` formats to `"<p><code>x</code></p>"` |
| Optional.Truthy | src/contexts/AuthContext.tsx:28 | JavaScript truthiness of an optional string (also `if (!slug)` in src/pages/BlogPost.tsx): absent and `""` are falsy |
| Auth.BearerHeader | src/services/authService.ts:22-27 | the header is `"Bearer "` followed by the token read at call time, or by `null` when there is none |
| Auth.BearerHeaderInjective | src/services/authService.ts:22-27 | different tokens give different headers |
| Auth.MissingTokenReadsAsNull | src/services/authService.ts:22-27 | a missing token sends the same header as the stored string `"null"` |
| Auth.ServiceResult | src/services/authService.ts:5-19 | login/register return the body unchanged; a rejection propagates; a `success` body without `data` throws, and only such a body throws |
| Auth.TokenAfter | src/services/authService.ts:5-19 | the token becomes the answer's token on a `success` answer with `data`; on every other answer it stays |
| Auth.UserOf | src/contexts/AuthContext.tsx:47-57 | the provider takes `response.data.user` when the body has `data`, and fails otherwise |
| Auth.LoginUserAndToken | src/contexts/AuthContext.tsx:47-57 | a successful login signs in the answer's user and stores its token; a rejected one changes neither |
| Auth.ProbeUser | src/contexts/AuthContext.tsx:33-41 | the probe yields `response.data.user`, or the failure that sends `checkAuth` to its `catch` |
| Auth.AuthService.constructor | src/services/authService.ts:35-37 | the service starts over whatever token is stored |
| Auth.AuthService.Login | src/services/authService.ts:5-11 | one post; token stored iff `success` (and unchanged on rejection); body returned unchanged |
| Auth.AuthService.Register | src/services/authService.ts:13-19 | the same rule for registration |
| Auth.AuthService.Store | src/services/authService.ts:7-10 | the token is written after the awaited call, only on `success` |
| Auth.AuthService.GetMe | src/services/authService.ts:21-29 | one request carrying the Bearer header of the current token; the answer is returned as is |
| Auth.AuthService.Logout | src/services/authService.ts:31-33 | the token is gone |
| Auth.AuthService.GetToken | src/services/authService.ts:35-37 | reads the stored token |
| Auth.AuthProvider.constructor | src/contexts/AuthContext.tsx:17-18 | initially nobody is signed in and loading is true |
| Auth.AuthProvider.IsAuthenticated | src/contexts/AuthContext.tsx:70 | authenticated exactly when a user is present |
| Auth.AuthProvider.CheckAuth | src/contexts/AuthContext.tsx:24-45 | no token: no request; a user in the answer signs in; 401 deletes the token; other failures keep token and user; loading ends false |
| Auth.AuthProvider.Login | src/contexts/AuthContext.tsx:47-52 | a resolved login sets the answer's user; a rejected one propagates and keeps the user |
| Auth.AuthProvider.Register | src/contexts/AuthContext.tsx:54-57 | the same for registration |
| Auth.AuthProvider.Logout | src/contexts/AuthContext.tsx:59-62 | token and user gone whatever the state before, so a second logout changes nothing |
| Hooks.BlogPostsHook.constructor | src/hooks/useBlogPosts.ts:5-9 | defaults `page = 1`, `limit = 10`; empty list, loading, no error, no pagination |
| Hooks.BlogPostsHook.Begin | src/hooks/useBlogPosts.ts:13-16 | a fetch starts with loading on, error cleared and one request for the current page |
| Hooks.BlogPostsHook.Settle | src/hooks/useBlogPosts.ts:16-24 | success replaces posts and pagination wholesale; failure sets the fixed message and keeps both; loading ends |
| Hooks.BlogPostsHook.Fetch | src/hooks/useBlogPosts.ts:12-25 | start and settle; a successful fetch leaves no error |
| Hooks.BlogPostsHook.Rerender | src/hooks/useBlogPosts.ts:11-28 | a new fetch runs exactly when `page` or `limit` changed |
| Hooks.CategoryParams | src/services/api.ts:62-65 | the category goes into the query exactly when it is a non-empty string |
| Hooks.SelectedCategory | src/pages/Projects.tsx:10-12 | `'all'` asks for no category, anything else for itself |
| Hooks.AllMeansNoFilter | src/pages/Projects.tsx:10-12 | the projects page sends no filter exactly for `'all'` (or an empty choice) |
| Hooks.ProjectsHook.constructor | src/hooks/useProjects.ts:5-8 | empty list, loading, no error |
| Hooks.ProjectsHook.Begin | src/hooks/useProjects.ts:13-15 | a fetch starts with loading on, error cleared and one request |
| Hooks.ProjectsHook.Settle | src/hooks/useProjects.ts:15-22 | success replaces projects wholesale; failure sets the fixed message and keeps them; loading ends |
| Hooks.ProjectsHook.Fetch | src/hooks/useProjects.ts:11-23 | start and settle; a successful fetch leaves no error |
| Hooks.ProjectsHook.Rerender | src/hooks/useProjects.ts:10-26 | a new fetch runs exactly when `category` changed |
| BlogAdmin.DraftOf | src/components/admin/BlogManager.tsx:39-48 | the sent body is the form with its tags split and trimmed: at least one tag, `[""]` for blank input |
| BlogAdmin.FormOf | src/components/admin/BlogManager.tsx:68-75 | the edit form copies the post's fields, joins the tags with `", "` and shows a missing featured image as `''` |
| BlogAdmin.BlankBlogForm | src/components/admin/BlogManager.tsx:12-19 | the blank form: all text fields empty, not published |
| BlogAdmin.BlankBlogFormDraft | src/components/admin/BlogManager.tsx:39-48 | submitting the blank form sends one empty tag and an empty featured image |
| BlogAdmin.EditThenSubmit | src/components/admin/BlogManager.tsx:42-74 | saving a just-edited post sends it back unchanged (tags non-empty, trimmed, comma-free; a missing image as `''`) |
| BlogAdmin.UntaggedPostGainsEmptyTag | src/components/admin/BlogManager.tsx:42-72 | saving a just-edited post without tags sends one empty tag |
| BlogAdmin.WriteOf | src/components/admin/BlogManager.tsx:39-49 | update of the edited post's id when editing, create otherwise; either carries the form, whose `DraftOf` is the body sent |
| BlogAdmin.BlogManager.constructor | src/components/admin/BlogManager.tsx:8-19 | empty list, loading, form closed, nothing selected, blank form |
| BlogAdmin.BlogManager.LoadPosts | src/components/admin/BlogManager.tsx:25-34 | success replaces the list wholesale, failure keeps it; loading ends false |
| BlogAdmin.BlogManager.HandleSubmit | src/components/admin/BlogManager.tsx:36-64 | exactly one write; on success form closed, selection cleared, form blank and exactly one reload; on failure nothing else changes |
| BlogAdmin.BlogManager.HandleEdit | src/components/admin/BlogManager.tsx:66-77 | the post is selected, the form filled from it and opened |
| BlogAdmin.BlogManager.HandleDelete | src/components/admin/BlogManager.tsx:79-88 | no call without confirmation; a confirmed delete reloads once on success and changes no list on failure |
| BlogAdmin.BlogManager.Cancel | src/components/admin/BlogManager.tsx:178-189 | form closed, selection cleared, form blank |
| BlogAdmin.BlogManager.OpenForm | src/components/admin/BlogManager.tsx:98 | the New button only opens the form |
| BlogAdmin.BlogManager.EditFields | src/components/admin/BlogManager.tsx:116-165 | the inputs change their fields; the featured image, which has no input, keeps its value |
| ProjectAdmin.DateOnly | src/components/admin/ProjectManager.tsx:92-93 | the day part of a timestamp: a prefix without `T` that is either the whole string or is followed by the first `T`; the string itself when it has none |
| ProjectAdmin.DateOnlyIdempotent | src/components/admin/ProjectManager.tsx:92-93 | cutting a date to its day twice is cutting it once |
| ProjectAdmin.BlankProjectForm | src/components/admin/ProjectManager.tsx:12-25 | the blank form; its start date is `DateOnly` of the current time |
| ProjectAdmin.BlankProjectFormDraft | src/components/admin/ProjectManager.tsx:45-49 | submitting the blank form sends one empty technology and no end date |
| ProjectAdmin.EndDateInput | src/components/admin/ProjectManager.tsx:93 | the edit form's end date: `''` when absent or empty, otherwise `DateOnly` of the date, which is the date itself when it has no `T` |
| ProjectAdmin.FormOf | src/components/admin/ProjectManager.tsx:81-94 | the edit form copies the project's fields, joins the technologies with `", "`, shows a missing live URL as `''`; its start date is `DateOnly` of the project's start date and its end date is `EndDateInput` of the project's end date |
| ProjectAdmin.EndDateField | src/components/admin/ProjectManager.tsx:48 | an empty end date is omitted, any other is sent as is |
| ProjectAdmin.DraftOf | src/components/admin/ProjectManager.tsx:45-49 | every other field is copied from the form; technologies split and trimmed (`[""]` for blank); an empty `endDate` omitted, any other sent as is |
| ProjectAdmin.EditThenSubmit | src/components/admin/ProjectManager.tsx:45-96 | saving a just-edited project sends it back unchanged when its lists and dates are already normal |
| ProjectAdmin.EditThenSubmitNormalises | src/components/admin/ProjectManager.tsx:85-93 | a missing live URL comes back as `''`, an empty end date as absent, no technologies as `[""]` |
| ProjectAdmin.WriteOf | src/components/admin/ProjectManager.tsx:51-55 | update of the edited project's id when editing, create otherwise; either carries the form, whose `DraftOf` is the body sent |
| ProjectAdmin.ProjectManager.constructor | src/components/admin/ProjectManager.tsx:8-25 | empty list, loading, form closed, nothing selected, blank form |
| ProjectAdmin.ProjectManager.LoadProjects | src/components/admin/ProjectManager.tsx:31-40 | success replaces the list wholesale, failure keeps it; loading ends false |
| ProjectAdmin.ProjectManager.HandleSubmit | src/components/admin/ProjectManager.tsx:42-77 | exactly one write; on success form reset and exactly one reload; on failure nothing else changes; loading never switches back on |
| ProjectAdmin.ProjectManager.HandleEdit | src/components/admin/ProjectManager.tsx:79-96 | the project is selected, the form filled from it and opened |
| ProjectAdmin.ProjectManager.HandleDelete | src/components/admin/ProjectManager.tsx:98-107 | no call without confirmation; a confirmed delete reloads once on success; loading never switches back on |
| ProjectAdmin.ProjectManager.Cancel | src/components/admin/ProjectManager.tsx:301-318 | form closed, selection cleared, form blank |
| ProjectAdmin.ProjectManager.OpenForm | src/components/admin/ProjectManager.tsx:117 | the New button only opens the form |
| ProjectAdmin.ProjectManager.SetForm | src/components/admin/ProjectManager.tsx:136-287 | the inputs set the form's fields |
| BlogPostPage.PostPage.constructor | src/pages/BlogPost.tsx:9-12 | no post, loading, no error |
| BlogPostPage.PostPage.FetchPost | src/pages/BlogPost.tsx:15-33 | no slug: fixed message, no request; otherwise one request; success sets the post, failure sets `"Blog post not found"` and keeps it; loading ends; the page then shows the post or the card with that message |
| BlogPostPage.PostPage.Rerender | src/pages/BlogPost.tsx:14-36 | a new fetch runs exactly when the slug changed, and ends as `FetchPost` does for the new slug: the no-slug message without a request, or one request whose answer sets the post or the not-found message |
| BlogPostPage.PostPage.Render | src/pages/BlogPost.tsx:38-69 | placeholder while loading; then the not-found card exactly when an error is set or there is no post, with the error or the default message |
| HomePage.StatusAfter | src/pages/Home.tsx:14-28 | the status is never `checking` after the probe, and online exactly when both calls succeed |
| HomePage.Home.constructor | src/pages/Home.tsx:9-11 | checking, loading, no featured projects |
| HomePage.Home.SettleHealth | src/pages/Home.tsx:16-27 | one probe; success turns the status online and leaves loading on; failure turns it offline and ends loading; the list is untouched |
| HomePage.Home.SettleFeatured | src/pages/Home.tsx:20-27 | after an online probe, one request; success replaces the list and stays online; failure turns offline and keeps the list; loading ends |
| HomePage.Home.FetchData | src/pages/Home.tsx:14-29 | health failure: offline and no featured request; both succeed: online with the answer's projects; featured failure: offline, list kept; loading ends |

## Left out

- The HTTP layer is not part of this model. That covers `src/services/api.ts`: the axios instance, base URL, timeout, interceptors and their logging. Each call is a parameter of the method that awaits it, and its path appears only as a request label.
- `src/services/adminService.ts` is not part of this model. Its `getAuthHeaders` builds the same `"Bearer " + token` header as `Auth.BearerHeader`. The admin requests are logged without their headers.
- The model has no concurrency. Each fetch starts and settles in one method call. Overlapping fetches, the stale-answer race in the hooks, and the `loadPosts()`/`loadProjects()` reload that is not awaited after a write are modelled as settling in order.
- `Hooks.BlogPostsHook.Settle`, `Hooks.ProjectsHook.Settle`, `BlogAdmin.BlogManager.LoadPosts`, `ProjectAdmin.ProjectManager.LoadProjects`, `HomePage.Home.FetchData`, `BlogPostPage.PostPage.FetchPost`: they take the body's `data` as well formed. A body whose `data` is missing would store `undefined`, and that case is not modelled.
- `Auth.TokenAfter`: a login or register body is taken as well formed, so a `data` member always carries a `token`. A success body whose `data` has no `token` makes the code store the string `"undefined"` (src/services/authService.ts:8); that case is not modelled.
- `Auth.UserOf`: likewise a `data` member always carries a `user`. A body whose `data` has no `user` makes the code sign in `undefined` (src/contexts/AuthContext.tsx:51); that case is not modelled.
- `Auth.ProbeUser`: a `/auth/me` body whose `data` exists but has no `user` would store `undefined`. That case is not distinguished from a body with a user.
- `ProjectAdmin.DateOnly`: it keeps the text before the first `T`. That equals `new Date(d).toISOString().split('T')[0]` on ISO dates and UTC timestamps. Time-zone shifts for other formats, and the `RangeError` on an invalid date, are not modelled. The current time of the blank project form is a parameter.
- Browser and UI effects are not modelled: `window.confirm` (its answer is a parameter), `console` logging, `preventDefault`, JSX markup, class-name helpers, routing, and the presentational components.
- `JsString.Trim` and `BlogFormat` are modelled on all strings, using the full ECMAScript white-space and line-terminator sets. The lemmas about headings and spans state their own preconditions on the input text.
- The regular expressions are modelled for the fixed patterns the formatter uses, not as a general regex engine.
