# AnFeeds front end: session, review board and catalog filters

AnFeeds is a browser front end for an anime catalog. Its behaviour lives in
`app.js`. The script keeps a handful of globals: whether someone is signed
in, their profile, the login form's mode, the comment list, the draft star
rating and the selected genre. Event handlers change these globals and then
redraw the page. This project models those globals and the rules that change
them. It also models the display flags that the genre filter, the search box
and the sidebar menu set on the page's elements.

- `text.dfy` (module `Text`): the three JavaScript string operations the
  rules use. These are `trim` (removing ECMAScript WhiteSpace and
  LineTerminator code points), `toLowerCase` and `includes`.
- `session.dfy` (module `Session`): the session as a `State` value, one pure
  function per transition, and the class `SessionManager`. The class holds
  the flags as fields, and each of its methods is proved to perform the
  matching transition. The invariant "signed in iff there is a profile" is
  proved for every transition and every sequence of transitions.
- `reviews.dfy` (module `Reviews`): the comment record, the lookup by id, the
  like toggle on a list, and the star-highlight rule. It also holds the class
  `ReviewBoard`, with fields for the comment list, the draft rating and the
  draft text.
- `catalog.dfy` (module `Catalog`): the genre filter, the search match, the
  Alt+digit shortcut table and the page-title table. The class `Page` holds
  the display flags of the genre rows, the titles and the menu entries. Its
  methods update these flags one element at a time, the way the source's
  `forEach` loops do.
- `wrappers.dfy` (module `Wrappers`): `Option`.

Some rules are easy to miss in the source:

- `resetLoginForm` sets sign-in mode and then calls `switchMode`, which flips
  the mode back. So a reset always leaves the form in sign-up mode. Closing
  the login modal, including at the end of every login, goes through this
  reset.
- `toggleLike` decrements the like counter without a floor
  (app.js:521-527). The counter stays non-negative only because of an
  invariant: every comment has `likes >= 0` and, when liked, `likes >= 1`.
  Posting creates comments that satisfy it, and toggling preserves it.
- `postComment` rejects only an empty trimmed text or `currentRating === 0`
  (app.js:431). It checks neither sign-in nor an upper bound on the rating.
  It reads the current user's name, so the model requires a current user;
  the comment form is hidden while signed out.
- The login button is not disabled while a login is pending: submission
  only swaps the button's label for a spinner (app.js:277-280).

## Model

| member | source | states |
|---|---|---|
| `Text.LeadingSpaces` | app.js:429 | Counts the whitespace that `trim` removes at the start. Everything counted is whitespace, and the next character, if any, is not. |
| `Text.TrailingSpaces` | app.js:429 | Counts the whitespace that `trim` removes at the end. Everything counted is whitespace, and the character before it, if any, is not. |
| `Text.TrimStart` | app.js:429 | The result is a suffix of the input. Everything dropped is whitespace. The result does not start with whitespace. |
| `Text.TrimEnd` | app.js:429 | The result is a prefix of the input. Everything dropped is whitespace. The result does not end with whitespace. |
| `Text.TrimShape` | app.js:429 | The trimmed text is a contiguous piece of the input with only whitespace around it. Neither of its ends is whitespace. |
| `Text.TrimEmptyIff` | app.js:429-431 | The trimmed text is empty exactly when the input is all whitespace. So a post is refused exactly for whitespace-only text. |
| `Text.TrimIdempotent` | app.js:429 | Trimming twice gives the same text as trimming once. |
| `Text.LowerIdempotent` | app.js:130 | After lower-casing, no upper-case letter is left, and lower-casing again changes nothing. |
| `Text.ContainsIff` | app.js:163 | `includes` holds exactly when the query is a prefix of the text from some position on. |
| `Text.ContainsEmpty` | app.js:163 | Every string includes the empty string. |
| `Session.Profile` | app.js:284-298 | The profile carries the submitted email and the fixed avatar. The name is never empty. It is "Otaku Master" in sign-in mode. In sign-up mode it is the full name, or "Anime Fan" when the full name is empty. |
| `Session.SwitchedTwice` | app.js:223 | `switchMode` negates the mode and changes nothing else. Two calls restore the state. |
| `Session.ResetLeavesSignUpMode` | app.js:257-265 | A reset leaves the form empty and in sign-up mode, whatever the mode was before. It keeps the sign-in flag and the profile, and resetting twice is the same as once. |
| `Session.LoggedInProfile` | app.js:284-302 | After login completion, the session is signed in. The profile has the submitted email, and its name is chosen by the mode read at completion time. The form is then reset. |
| `Session.StepKeepsConsistent` | app.js:284-319 | Each transition keeps "signed in iff there is a profile". The transitions are switch mode, reset, edit, complete login and logout. |
| `Session.RunKeepsConsistent` | app.js:284-319 | Every sequence of transitions keeps that invariant. |
| `Session.ReachableConsistent` | app.js:2-4 | Every state reachable from page load satisfies the invariant. |
| `Session.WelcomeNotice` | app.js:309 | The sign-in greeting is chosen exactly for sign-in mode, and the sign-up greeting exactly for sign-up mode. |
| `Session.AsWrittenNoticeIgnoresMode` | app.js:300-309 | As written, the greeting is always the sign-up one, so a sign-in gets the wrong greeting. |
| `Session.SignInScenario` | app.js:284-290 | Signing in from page load with an empty full name gives a signed-in session with the "Otaku Master" profile. |
| `Session.SessionManager.constructor` | app.js:2-4 | The session starts signed out, with no profile and the form in sign-in mode. |
| `Session.SessionManager.SwitchMode` | app.js:222-223 | Negates `isLoginMode` and keeps the invariant. |
| `Session.SessionManager.ResetLoginForm` | app.js:257-265 | Clears the three inputs and leaves `isLoginMode` false. |
| `Session.SessionManager.EditForm` | app.js:272-274 | Typing sets the form values that a later submission reads. |
| `Session.SessionManager.SubmitLogin` | app.js:272-274 | Submission captures the current form values and changes no session flag. |
| `Session.SessionManager.CompleteLogin` | app.js:283-309 | Signs in with the profile for the mode at completion time, then resets the form. It returns the greeting for that mode. |
| `Session.SessionManager.Logout` | app.js:314-316 | Signs out, sets no profile and keeps the invariant. |
| `Reviews.FlippedFields` | app.js:521-527 | A click flips `liked` and moves `likes` by one in the same direction. Other fields are unchanged, and a second click undoes the first. |
| `Reviews.FlippedKeepsConsistent` | app.js:521-527 | A click keeps a consistent like counter consistent (never negative, at least 1 while liked). A well-formed comment stays well formed. |
| `Reviews.FlippedWithoutInvariant` | app.js:522 | Nothing clamps the counter. A liked comment with 0 likes goes to -1. |
| `Reviews.FirstIndexOf` | app.js:519 | The result is the position of the first comment carrying the id. It is none exactly when no comment carries the id. |
| `Reviews.FirstIndexOfSameIds` | app.js:519 | The lookup depends only on the ids. |
| `Reviews.ToggleLikeInEffect` | app.js:519-527 | The list keeps its length and order. Only the first comment carrying the id changes, by one click. |
| `Reviews.ToggleLikeInAbsent` | app.js:519-520 | With no comment carrying the id, the list is unchanged. |
| `Reviews.ToggleLikeInTwice` | app.js:519-527 | Toggling the same id twice restores the list. |
| `Reviews.ToggleLikeInKeepsConsistent` | app.js:519-527 | If every like counter is consistent, the toggle keeps them consistent, and it keeps every comment well formed. |
| `Reviews.FindById` | app.js:519 | The loop finds the first comment carrying the id, or reports none exactly when no comment carries it. |
| `Reviews.StarsLitCount` | app.js:413-422 | Star `i` is lit iff `i < rating`. The lit stars form a prefix, and there are as many as the rating, capped at the row length. |
| `Reviews.CommentStarsCount` | app.js:480-482 | A posted comment shows as many filled stars as its rating, at most five. |
| `Reviews.LikeTwiceScenario` | app.js:519-527 | A comment with 3 likes goes to 4 likes and liked, then back to 3 and not liked. |
| `Reviews.ReviewBoard.constructor` | app.js:5-6 | The board starts with no comments, no rating and an empty draft. |
| `Reviews.ReviewBoard.EditDraft` | app.js:429 | Typing sets the draft text that a post reads. |
| `Reviews.ReviewBoard.ClickStar` | app.js:395-398 | Clicking star `index` sets the draft rating to `index + 1`. |
| `Reviews.ReviewBoard.CancelComment` | app.js:458-462 | Cancelling clears the draft text, sets the rating to 0 and leaves the comments alone. |
| `Reviews.ReviewBoard.PostComment` | app.js:428-456 | The post succeeds iff the trimmed draft is non-empty and the rating is not 0. On failure, nothing changes. On success, the new record is prepended: trimmed text, the draft rating, the user's name and avatar, 0 likes, not liked. The rating is reset and the draft cleared. Every comment stays well formed. |
| `Reviews.ReviewBoard.ToggleLike` | app.js:513-539 | When signed out, it only asks for a login and changes nothing. When signed in, the list becomes `ToggleLikeIn` of the old list, and the outcome says whether a comment was found and whether it is now liked. |
| `Reviews.LogoutKeepsComments` | app.js:314-319 | Logging out leaves the comment list as it was. |
| `Catalog.GenreFilterShows` | app.js:71 | Selecting "all" shows every row. Selecting any other genre shows exactly the rows of that genre. |
| `Catalog.SearchQuery` | app.js:130 | The query has the input's length and contains no upper-case letter. |
| `Catalog.ItemMatchesIff` | app.js:159-163 | An item matches iff the query occurs in its lower-cased title or description. The explicit empty-query test is redundant. |
| `Catalog.SearchIgnoresCase` | app.js:129-131 | An input and its lower-cased form match the same items. |
| `Catalog.AnyShownInIff` | app.js:178-179 | The scan finds a displayed item in a row iff one exists among the items scanned. |
| `Catalog.SearchShowsMatchingContainers` | app.js:161-183 | An empty query leaves each row as it was. Any other query shows a row iff it holds a matching item, whatever genre is selected. |
| `Catalog.ClearingSearchLeavesContainersHidden` | app.js:129-131 | Searching for "a" and then emptying the box brings back every item. The row without a match stays hidden although "all" is selected. |
| `Catalog.ShortcutsMatchTitles` | app.js:600-632 | Different shortcut keys select different genres. Every selected genre other than "all" has its own page title. |
| `Catalog.MenuClickAgreesWithShortcut` | app.js:637-643 | With one menu entry per genre, the shortcut highlights the same single entry as a click on it. If a genre repeats, the shortcut highlights more than one entry. |
| `Catalog.Page.constructor` | app.js:25-61 | At page load, every row of every genre is shown, every item is displayed and the selected genre is "all". |
| `Catalog.Page.FilterByGenre` | app.js:65-78 | Each row's flag becomes its genre-filter flag. Items, menu and selection are unchanged. |
| `Catalog.Page.FilterAnime` | app.js:154-184 | Each item is displayed iff it matches. The rows follow `ContainersAfterSearch` of the old rows. |
| `Catalog.Page.SearchInputAsWritten` | app.js:126-134 | The input handler as written: it filters by the lower-cased input and leaves the rows alone when the query is empty. |
| `Catalog.Page.SearchInput` | app.js:126-134 | Same as the handler as written, except that emptying the box restores the rows of the selected genre. |
| `Catalog.Page.UpdateActiveMenuItem` | app.js:637-645 | Highlights exactly the entries whose genre is the given one, and selects that genre. |
| `Catalog.Page.ClickMenuItem` | app.js:27-37 | Highlights the clicked entry alone, selects its genre and filters the rows by it. |
| `Catalog.Page.KeyDown` | app.js:599-633 | Alt+1 to Alt+6 select a genre as `updateActiveMenuItem` does and filter the rows by it. Any other key changes nothing. |

## Findings

| source | as written | input that shows it | evidently intended | confidence | as-written member | corrected member |
|---|---|---|---|---|---|---|
| app.js:300-309 | The greeting is chosen from `isLoginMode` after `closeLoginModal()` has reset the form. The reset always leaves the mode false. | Any sign-in: the mode is true at completion, and the greeting is still "Welcome to the anime community!". | Greet a sign-in with "Welcome back, fellow otaku!". | high; not executed | `Session.AsWrittenNoticeIgnoresMode` | `Session.SessionManager.CompleteLogin` |
| app.js:129-131 | Emptying the search box runs `filterAnime('')`. That shows every item but leaves the rows as the last search left them. | Rows "action" and "horror" hold items "A" and "B". Type "a", then clear the box: the "horror" row stays hidden while "all" is selected. | Restore the selected genre's rows, as closing the search box does at app.js:143-145. | medium; not executed | `Catalog.ClearingSearchLeavesContainersHidden` | `Catalog.Page.SearchInput` |

## Left out

- Rendering is not modelled: `loadComments`, the HTML built in `createCommentElement`, `updateAuthUI`, `updateCommentFormVisibility`, `updateStarDisplay` and the hover preview of the stars. Only their decision rules (`StarsLit`) are kept.
- Timers are not modelled: the 1.5 s login delay, notifications, the heart pulse and the genre indicator. Login completion is one atomic step, and the form values it uses are a parameter captured by `SubmitLogin`. Nothing prevents a second submission while one is pending, and the source has no guard either.
- Notification texts are left out, except the login greeting needed for the finding.
- Modal visibility is not modelled: `openLoginModal`, `closeLoginModal`, the Escape key, overlay clicks, `openAnimeDetail` and `closeMovieDetail`. Closing the login modal is kept only as its call to `resetLoginForm`. `ToggleLike` reports `LoginRequired` instead of opening the modal.
- `localStorage`, dark mode, drag-to-scroll and the `scrollTo*` functions are browser state or geometry.
- `toggleSearch`, `togglePassword` and `shareComment` are outside the modelled core.
- `showGenreIndicator` is never called, and `addGenreIndicator` is called only from it (app.js:706).
- `updatePageTitle` only writes to the console. Only its name table is kept (`GenreTitle`).
- `Date.now()` ids are a parameter of `PostComment`. Ids are not claimed to be unique, and the source does not make them so.
- Text.LowerIdempotent: case mapping covers only ASCII letters, while `toLowerCase` also lowers non-ASCII letters.
- Catalog.ShortcutsMatchTitles: the title lookup does not model keys inherited from JavaScript's `Object.prototype`.
- Reviews.ReviewBoard.ClickStar: the number of stars in the rating input comes from the page markup, so any star index is accepted.
- Catalog.Page.constructor: every title must sit inside a genre row, as the page markup provides. For a title outside any row, `closest` would return null and the search would throw.
- The login form's `fullName` input is assumed to exist. The source falls back to the empty string when it is missing.
