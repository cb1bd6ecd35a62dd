# Elysene portfolio site — a verified model of its logic

The site is a bilingual (French/English) Next.js portfolio. Most of it is
markup and animation. This project models the parts of it that decide
something, and proves what they promise:

- **The contact endpoint** `POST /api/send` (`contact_api.dfy`, module
  `ContactApi`). It runs three checks in a fixed order: required fields,
  then the e-mail pattern `^[^\s@]+@[^\s@]+\.[^\s@]+$`, then the provider
  configuration. It builds the provider payload, with "Non renseigné" for a
  blank company or phone, makes a single call to the e-mail provider, and
  maps that call's outcome to a 200 or 500 reply. Any exception becomes a
  500. The handler is a pure function of three inputs: the parsed request,
  the configuration, and the outcome the provider call would have. Its
  result is the reply together with the outbound call, if one was made.
- **The sitemap** (`sitemap.dfy`, module `Sitemap`). Nested loops append one
  entry per locale × (static page, project, article). The loops are methods
  proved equal to a specification function. Lemmas about that function give
  the count, the locale-major order, the URL shapes, the priority rule and
  the shared timestamp.
- **The contact form** (`contact_form.dfy`, module `ContactForm`). A class
  holds the form data, the submission status and the "copied" flag. Typing,
  submitting, the request settling and the timers firing are separate steps.
  The submit button's label is a pure function of the status.
- **The navigation bar** (`navbar.dfy`, module `Navbar`). A class holds the
  scroll and menu state and the body's saved `top` style. It covers the
  hide/show rule, the scroll lock of the mobile menu, the language switch
  and anchor links. The saved position `"-<n>px"` and its decoding through
  `parseInt` are pure functions, with a round-trip lemma.
- **The hero section** (`hero.dfy`, module `Hero`). `SlotDigit` builds its
  digit strip in a loop. The method is proved equal to a cell-by-cell
  description, and lemmas give the length and final digit in each
  direction. A predicate models the filter installed in front of
  `console.error`.
- **The legal pages** (`legal_content.dfy`, module `LegalContent`). A text is
  split on newlines, with a line break after every line but the last.
  Sections get increasing transition delays.

Two shared modules support these. `Wrappers` holds `Option`. `Text` holds
ECMAScript white space, `indexOf` of one character, and the number of
occurrences of a character.

JavaScript semantics are written out where they matter:

- the truthiness of strings and `||`;
- the `\s` class, with every white-space and line-terminator code point;
- `Array.prototype.slice` with a negative or oversized end, and `indexOf`
  returning -1;
- `String.prototype.replace` with a string pattern, which replaces only the
  first occurrence;
- `split('\n')`;
- `parseInt` in base ten.

The model takes the following as inputs:

- the process environment (a `Config` record);
- what `request.json()` yields (a parsed `Body` or `MalformedJson`);
- how the provider call ends: a status and an optional parsed body, or a
  network failure;
- whether the clipboard write succeeded;
- `window.scrollY`;
- the current pathname;
- the sitemap timestamp.

Timers are explicit "fires" steps.

## Model

| member | source | states |
|---|---|---|
| ContactApi.OrElse | app/api/send/route.ts:35 | the logical-or default on an optional string: the field when it is present and non-empty, the fallback otherwise |
| ContactApi.EmailMatches | app/api/send/route.ts:24-25 | splitting at the first '@' accepts exactly the strings the pattern describes position by position: a non-empty local part, one '@', a '.' with at least one character on each side after it, and every other character outside white space and '@' |
| ContactApi.AcceptedEmailHasOneAt | app/api/send/route.ts:24 | an accepted address has exactly one '@', no white space, a non-empty local part, and a dot after the '@' with text on both sides |
| ContactApi.NoDotRejected | app/api/send/route.ts:24-30 | "a@b" is rejected |
| ContactApi.EmptyLocalPartRejected | app/api/send/route.ts:24-30 | "@b.com" is rejected |
| ContactApi.SpaceRejected | app/api/send/route.ts:24-30 | "a b@c.d" is rejected |
| ContactApi.PlainAddressAccepted | app/api/send/route.ts:24-25 | "jane@x.com" is accepted |
| ContactApi.AdminEmail | app/api/send/route.ts:35 | the bcc address is the override when it is set and non-empty, otherwise contact@elysene.engineering |
| ContactApi.BuildPayload | app/api/send/route.ts:46-64 | `to` and `replyTo` carry the submitter; `bcc` carries the admin mailbox named "Ely Admin"; the template id is the configured number; NAME and MESSAGE are copied; COMPANY and PHONE are the value when non-empty, else "Non renseigné", so they are never empty |
| ContactApi.ProviderReply | app/api/send/route.ts:77-103 | 200 exactly for a 2xx response, with the success body and message; a non-2xx response gives 500 "Failed to send email" with the parsed body or `{}` as details; a network failure gives 500 "Internal server error" |
| ContactApi.HandlePost | app/api/send/route.ts:11-103 | a call is sent iff the body parsed, passed both input checks and the configuration is complete, and it then carries the API key and the built payload; the status is always 200, 400 or 500; 400 iff the input checks fail, whatever the configuration; missing fields are reported before a bad e-mail; the configuration error appears iff the input is valid and the configuration incomplete; 200 iff a call was sent and answered 2xx, with the success body; once a call is sent, the reply is the one `ProviderReply` gives for the provider's outcome; an unparsable body gives 500 "Internal server error" |
| ContactApi.ReplyIndependentOfKey | app/api/send/route.ts:67-103 | the reply is the same whatever truthy API key is configured: the key goes only to the provider, and provider text reaches the caller only as a failure's `details` |
| ContactApi.ReplyTextsAreFixed | app/api/send/route.ts:16-103 | every error, failure and success text the caller can see is one of the handler's fixed strings |
| ContactApi.PlaceholderExample | app/api/send/route.ts:58-63 | a valid submission without company or phone sends "Non renseigné" for both |
| ContactApi.NonObjectRejected | app/api/send/route.ts:13-21 | a JSON number, string, boolean or array has no fields: 400 "Missing required fields" and nothing sent |
| ContactApi.NoDeduplication | app/api/send/route.ts:67-75 | handling is stateless: the same valid submission sends the same call every time, whatever the provider answered before |
| Sitemap.StaticRoute | app/sitemap.ts:34-39 | the URL is base/locale followed by the page; the root page is weekly with priority 1, every other static page monthly with priority 0.8 |
| Sitemap.ProjectRoute | app/sitemap.ts:44-49 | the URL is base/locale/projects/slug, monthly, priority 0.7 |
| Sitemap.ArticleRoute | app/sitemap.ts:54-59 | the URL is base/locale/blog/slug, monthly, priority 0.7 |
| Sitemap.PushStatic | app/sitemap.ts:33-40 | the static-pages loop appends one entry per page, in list order, to what was there |
| Sitemap.PushProjects | app/sitemap.ts:43-50 | the projects loop appends one entry per slug, in order |
| Sitemap.PushArticles | app/sitemap.ts:53-60 | the articles loop appends one entry per slug, in order |
| Sitemap.PushLocale | app/sitemap.ts:32-61 | one pass of the outer loop appends that locale's block: static pages, then projects, then articles |
| Sitemap.BuildRoutes | app/sitemap.ts:29-63 | the nested loops produce the locale-major list of blocks |
| Sitemap.Generate | app/sitemap.ts:3-64 | `sitemap()` on the site's own lists produces that list, 18 entries |
| Sitemap.TheSite | app/sitemap.ts:4-27 | the site's lists give 9 entries per locale |
| Sitemap.LocaleRoutesAt | app/sitemap.ts:32-61 | within a locale, entry k is the k-th static page, then the projects, then the articles |
| Sitemap.RouteCount | app/sitemap.ts:29-61 | the list has (number of locales) × (static pages + projects + articles) entries |
| Sitemap.RoutesAt | app/sitemap.ts:32-61 | entry li × perLocale + k is entry k of locale li's block |
| Sitemap.RoutesUnderLocale | app/sitemap.ts:32-61 | every entry carries the common timestamp and its URL starts with base/locale for one of the locales |
| Sitemap.LocaleRouteUnderRoot | app/sitemap.ts:35-55 | every entry of a locale's block starts with that locale's root and carries the timestamp |
| Sitemap.PriorityRule | app/sitemap.ts:37-58 | priority 1 exactly for the root page, 0.8 exactly for the other static pages, 0.7 exactly for projects and articles; weekly exactly when priority is 1 |
| Sitemap.SiteRouteCount | app/sitemap.ts:5-27 | 2 × (4 + 4 + 1) = 18 entries |
| Sitemap.SiteBlockStarts | app/sitemap.ts:32-39 | entries 0 and 9 are the French and English roots, weekly, priority 1 |
| Sitemap.SiteLastRoute | app/sitemap.ts:53-61 | the last entry is the English article |
| ContactForm.FormData.With | components/Contact.tsx:84-87 | the named field takes the new value; every other field keeps its value |
| ContactForm.ButtonLabel | components/Contact.tsx:120-131 | each of sending, success and error has its own key, and idle is "form.submit" (both directions) |
| ContactForm.SubmitDisabled | components/Contact.tsx:214 | the button is disabled exactly while its label is "form.sending" |
| ContactForm.LabelsDistinct | components/Contact.tsx:120-131 | the label determines the status |
| ContactForm.WithLaws | components/Contact.tsx:83-88 | writing a field leaves the others; the last write wins; writing back a field's own value changes nothing |
| ContactForm.Contact.constructor | components/Contact.tsx:63-71 | all five fields are empty, the status is idle, nothing is copied |
| ContactForm.Contact.HandleChange | components/Contact.tsx:83-88 | only the named field changes; the status and the copied flag are kept |
| ContactForm.Contact.StartSubmit | components/Contact.tsx:90-101 | the status is sending, so the button is disabled, before the request goes out; the request carries the current form data |
| ContactForm.Contact.FinishSubmit | components/Contact.tsx:103-116 | an ok response gives success and clears all five fields; a failed response or a thrown error gives error and keeps the data |
| ContactForm.Contact.StatusTimerFires | components/Contact.tsx:107-115 | the three-second timer brings the status back to idle and changes nothing else |
| ContactForm.Contact.CopyEmail | components/Contact.tsx:73-81 | a successful clipboard write sets the copied flag; a failed one changes nothing |
| ContactForm.Contact.CopyTimerFires | components/Contact.tsx:77 | the two-second timer clears the copied flag |
| ContactForm.SuccessfulSubmission | components/Contact.tsx:83-117 | typing the required fields and submitting with an ok answer sends exactly the typed values, then leaves the form empty and idle |
| ContactForm.FailedSubmission | components/Contact.tsx:108-116 | a failed submission of the three required fields keeps what was typed and shows "form.error" |
| ContactForm.StaleTimerDuringSend | components/Contact.tsx:92-115 | after a failed round the kept data is resubmitted unchanged, and the failed round's timer then shows idle and re-enables the button while the new request is in flight |
| Navbar.ScrolledPast | components/Navbar.tsx:85 | the background is opaque exactly when the position exceeds 10 pixels, fractional and negative positions included |
| Navbar.ShowsAfterScroll | components/Navbar.tsx:87-91 | the bar shows iff the scroll did not move down or stays within the first 100 pixels |
| Navbar.ShowRules | components/Navbar.tsx:85-91 | scrolling up, staying put, or staying within 100 pixels always shows the bar; a hidden bar always has the opaque background |
| Navbar.NatToString | components/Navbar.tsx:56 | the decimal form of a position is non-empty and all digits |
| Navbar.ValueOfNatToString | components/Navbar.tsx:56-69 | reading the decimal form back gives the number |
| Navbar.EncodeTop | components/Navbar.tsx:56 | the saved `top` is never empty |
| Navbar.ParseInt | components/Navbar.tsx:69 | `parseInt` gives NaN exactly when no digit follows the optional white space and sign |
| Navbar.ParseEncodedTop | components/Navbar.tsx:56-69 | `parseInt("-<n>px")` is -n |
| Navbar.RestoreCommand | components/Navbar.tsx:62-70 | an empty `top` scrolls nowhere; any other value scrolls |
| Navbar.RestoreEncodedTop | components/Navbar.tsx:54-69 | decoding the `top` saved at position n scrolls back to exactly n |
| Navbar.AnchorOf | components/Navbar.tsx:35 | a href without '#' is kept; otherwise the first '#' is removed and everything else kept in order, so the result is one character shorter and has one '#' fewer |
| Navbar.AnchorOfLink | components/Navbar.tsx:35 | the link "#name" targets "name" |
| Navbar.AnchorNavigation | components/Navbar.tsx:35-47 | it scrolls in place iff the pathname is "/" or "", and otherwise pushes "/#" followed by the anchor |
| Navbar.AnchorFromOtherPage | components/Navbar.tsx:44-47 | from any other page, the link "#name" navigates to "/#name" |
| Navbar.Navbar.constructor | components/Navbar.tsx:16-19 | the bar starts unscrolled, visible, at 0, with the menu closed and the body unlocked |
| Navbar.Navbar.InView | components/Navbar.tsx:223 | with the menu open the bar is always in view; with it closed, in view iff the last scroll showed it |
| Navbar.Navbar.Blurred | components/Navbar.tsx:224 | with the menu open the background is never blurred; with it closed, blurred iff scrolled past 10 pixels |
| Navbar.Navbar.HandleScroll | components/Navbar.tsx:83-94 | scrolled iff past 10 pixels; hidden iff moving down and past 100 pixels; the last position becomes the current one |
| Navbar.Navbar.ToggleMobileMenu | components/Navbar.tsx:322 | the hamburger button flips the menu |
| Navbar.Navbar.CloseMobileMenu | components/Navbar.tsx:26-28 | the menu is closed |
| Navbar.Navbar.HandleLanguageChange | components/Navbar.tsx:21-24 | the same pathname is requested in the chosen locale, and the menu closes |
| Navbar.Navbar.HandleAnchorClick | components/Navbar.tsx:31-48 | the menu closes and the anchor decision is taken |
| Navbar.Navbar.MenuEffect | components/Navbar.tsx:51-71 | opening locks the body and saves "-<n>px"; closing unlocks, clears `top`, and scrolls according to the `top` it read |
| Navbar.Navbar.MenuEffectCleanup | components/Navbar.tsx:72-78 | every body style is reset, `top` included |
| Navbar.Navbar.MenuChangedAsWritten | components/Navbar.tsx:51-79 | with the cleanup run before the next effect, as React does, no change of the menu ever scrolls |
| Navbar.Navbar.MenuChanged | components/Navbar.tsx:51-79 | with the saved `top` read before the cleanup, closing scrolls according to the position saved on opening |
| Navbar.ScrollLostOnClose | components/Navbar.tsx:51-79 | as written, opening the menu at any position and closing it does not scroll back |
| Navbar.ScrollRestoredOnClose | components/Navbar.tsx:54-69 | corrected, opening at position n and closing scrolls back to n |
| Navbar.InViewWhileMenuOpen | components/Navbar.tsx:223-224 | while the menu is open, the bar is in view and not blurred, even when the scroll would hide it |
| Navbar.ScrollWithMenuClosed | components/Navbar.tsx:223-224 | with the menu closed, the bar is in view iff the last scroll showed it, and blurred iff past 10 pixels |
| Hero.SliceEnd | components/Hero.tsx:31 | the end `slice(0, end)` uses: an in-range end is kept, and the result never exceeds the length |
| Hero.IndexInReversed | components/Hero.tsx:38 | a digit is found at the index where the reversed digits hold it; anything else gives -1 |
| Hero.Strip | components/Hero.tsx:21-43 | two cycles plus the tail; every cell follows the 0..9 (or 9..0) pattern |
| Hero.GenerateStrip | components/Hero.tsx:21-43 | the loop-built strip is the cell-by-cell strip, and `finalIndex` is its last index |
| Hero.StripCycles | components/Hero.tsx:27-37 | the strip opens with two full cycles |
| Hero.StripTail | components/Hero.tsx:31-39 | for a digit, the tail is the cycle cut just after the value, so the last cell is the value |
| Hero.UpStrip | components/Hero.tsx:27-31 | counting up to v: 0..9, 0..9, 0..v, that is 21 + v cells ending on v |
| Hero.DownStrip | components/Hero.tsx:33-40 | counting down to v: 9..0, 9..0, 9..v, that is 30 - v cells ending on v |
| Hero.TranslatePercent | components/Hero.tsx:58 | not started: no offset; started: a whole number of cell heights, `finalIndex` of them upward |
| Hero.DigitInView | components/Hero.tsx:42-58 | once started, the strip is moved up by `finalIndex` cells, and that cell is the target digit; before, it is not moved and the first cell shows |
| Hero.ErrorString | components/Hero.tsx:135 | the text of a present first argument, otherwise "" |
| Hero.IncludesAt | components/Hero.tsx:136 | `includes` holds iff some window of the string equals the word |
| Hero.FilterConsoleError | components/Hero.tsx:134-138 | the message is dropped iff its first argument contains "started" or "undefined", or "spline" in any case; otherwise the arguments are forwarded unchanged |
| Hero.Suppressed | components/Hero.tsx:136 | a message is dropped iff it contains "started" or "undefined", or six letters that spell "spline" in some letter case |
| Hero.SplineAnyCase | components/Hero.tsx:136 | searching the lowered text for "spline" succeeds iff some six-letter window lowers to "spline" |
| Hero.SuppressedExtend | components/Hero.tsx:136 | a dropped message stays dropped whatever surrounds it |
| Hero.SplineSuppressed | components/Hero.tsx:136 | "Spline scene failed" is dropped |
| Hero.TimeoutForwarded | components/Hero.tsx:136-137 | "Timeout" is forwarded |
| Hero.FirstArgumentOnly | components/Hero.tsx:135 | a trigger word in the second argument does not drop the message |
| LegalContent.SplitLines | components/LegalContent.tsx:29 | `split('\n')` gives at least one piece, and no piece contains a newline |
| LegalContent.RenderText | components/LegalContent.tsx:28-35 | one segment per piece, in order; a break follows every segment but the last |
| LegalContent.JoinSplit | components/LegalContent.tsx:29 | joining the pieces with newlines gives the text back |
| LegalContent.SplitUnique | components/LegalContent.tsx:29 | newline-free lines joined and split again give back the same lines |
| LegalContent.LineCount | components/LegalContent.tsx:29-32 | there is one more piece than there are newlines |
| LegalContent.BreaksMatchNewlines | components/LegalContent.tsx:29-32 | the rendered text has as many breaks as the text has newlines |
| LegalContent.RenderRoundTrip | components/LegalContent.tsx:28-35 | the rendered lines joined with newlines are the text |
| LegalContent.SectionDelay | components/LegalContent.tsx:111 | every section waits at least 300 ms |
| LegalContent.DelayIncreasing | components/LegalContent.tsx:105-111 | later sections start later, 150 ms per section |

## Left out

- The provider `fetch`, `request.json()`, `process.env` and the `console.error` logging are I/O. They become inputs (`Request`, `Config`, `ProviderOutcome`) or are dropped. The second `brevoResponse.json()` on a 2xx answer does not change the reply and is not modelled.
- `Number(templateId)` is a floating-point conversion. It is an input of the model (`TemplateSetting.number`), and its NaN is not modelled.
- A body that is not valid JSON, or that parses to `null`, throws (when parsed, or when its fields are read) and is `MalformedJson`: 500 "Internal server error". A body that parses to a number, string, boolean or array reads every field as `undefined`; it is the `Body` with every field `None`, which gets 400 "Missing required fields". Fields of non-string JSON types, which the pattern test would coerce to strings, are not modelled.
- The browser's `required` and `type="email"` checks on the form run before `handleSubmit`. They are not modelled: the server model stands on its own.
- Sitemap priorities are floats and `lastModified` is a `Date`. Priorities are kept in tenths (10, 8, 7) and the timestamp is an opaque integer input.
- The `Route` type in `app/sitemap.ts` comes from the framework. Only the four fields set there are modelled.
- Hero.LowerChar: lower-cases ASCII only. `toLowerCase` maps all of Unicode. For the word "spline" the two decide alike. The only other character whose lower case contains one of its letters is U+0130, which lowers to 'i' followed by a combining dot, so it cannot be followed by 'n'.
- Navbar.ParseInt: base ten only. The `0x` prefix of `parseInt` never occurs in a saved `top`.
- Navbar.EncodeTop: takes a whole number of pixels. A fractional `window.scrollY` would be truncated by `parseInt`.
- Navbar.Navbar.MenuEffect: the position saved when the menu opens is a whole, non-negative number of pixels, as for `EncodeTop`; fractional and overscroll (negative) positions are not modelled there. `ScrolledPast`, `ShowsAfterScroll` and `HandleScroll` take the position as a `real`.
- React's state batching and stale closures are not modelled. Each handler runs on the current state, and timers are steps the caller orders.
- `scrollIntoView` runs only when an element with the anchor's id exists. The model returns the request (`ScrollToSection`) and leaves the DOM lookup out.
- The Navbar effect that scrolls to `window.location.hash` on page load (components/Navbar.tsx:101-112) is a DOM timer. It is not modelled.
- The observers, timers and 3D-scene plumbing of the hero, the Spline viewer integration, and all CSS classes and transitions are not modelled. The nav's translate and background conditions are the functions `Navbar.Navbar.InView` and `Navbar.Navbar.Blurred`, whose contracts split on whether the menu is open.
- `components/Footer.tsx`, `components/Logo.tsx` and `i18n/routing.ts` are constants and markup. The locales appear as the `Locale` datatype and the `Locales` constant.

## Findings

| source | as written | input that shows it | evidently intended | confidence | as-written member | corrected member |
|---|---|---|---|---|---|---|
| components/Navbar.tsx:51-79 | React runs the cleanup returned by the previous run of the effect (lines 72-78, which clear `document.body.style.top`) before the next run. The close branch (line 62) therefore always reads an empty `top` and never calls `window.scrollTo` | open the mobile menu at `scrollY = 500`, then close it: the page stays at the top instead of returning to 500 | closing the menu scrolls back to the position saved on opening; reading `top` before the cleanup resets it does that | high (React's documented effect order), not executed | Navbar.ScrollLostOnClose | Navbar.ScrollRestoredOnClose |
