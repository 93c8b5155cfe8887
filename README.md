# docsify-codeview in Dafny

A model of `src/codeview.js`, the docsify plugin that puts a Monaco code
editor and diff viewer next to a documentation page. For every rendered page
the plugin's `afterEach` hook does three things:

- it scrapes the `code` elements whose class holds `lang-` into index-aligned
  snippets and display names;
- it picks the page language: the last fence that names one wins, and
  `"rust"` is the default;
- it builds two `select` elements, a file selector and a diff selector, and
  wraps the page either in a two-column layout with `editor` and `editor_bar`
  mount points or in a single full-page column.

The selectors' `onchange` handlers load one snippet into a single editor, or
two snippets into a diff editor. Each load saves the old editor's view state
before it disposes of it. Then it creates exactly one new editor and restores
into it the most relevant saved view.

Modules, one per component of the script:

- `Wrappers` (`wrappers.dfy`): `Option`, which stands for JavaScript's
  `undefined`.
- `ClassNames` (`class_names.dfy`): `split("-")` and its inverse `Join`. Also
  segment lookup, the display label with its literal `"undefined"` for a
  missing segment, and the language a fence announces.
- `Scraper` (`scraper.dfy`): the scrape loop as a method, proved against the
  specification function `LangOf` and the label function. It also holds the
  last-wins/default lemmas about `LangOf`.
- `Layout` (`layout.dfy`): the page wrapper as the join of the hook's pieces.
  Lemmas show that the two-column form is chosen iff a fence matched, that the
  html comes back verbatim (`Lesson` inverts `Page`) and where the mount
  points sit.
- `Selector` (`selector.dfy`): the `select` element as a class whose option
  list the `forEach` loop extends in place.
- `Editor` (`editor.dfy`): the window globals as classes. `Env` is
  `window.cv_env`. `Window` holds `monaco_editor`, `view_state` and the
  `docsify-tabs` elements. Its methods are the hook, the two `onchange`
  handlers, `loadEditor`, `loadDiffEditor`, `removeElement` and the
  template-tracking listener. Every editor instance carries an identity that
  edits keep. A ghost event log records, by identity, each view-state save,
  disposal and creation. `Window.Valid()` says three things. The live
  instances (created and not yet disposed) are exactly the held editor. Every
  disposal hits a live instance straight after a save from it. Every creation
  makes a new instance.

The diff editor restores the saved view as `{ original: currentView() }`
(src/codeview.js:224), so the saved view goes into the original pane. The
template/final/previous buttons at src/codeview.js:126-161 are commented out
and are not modelled.

## Model

| member | source | states |
|---|---|---|
| `ClassNames.Split` | src/codeview.js:41-43 | `split("-")` yields at least one piece, no piece holds the separator, and there is one piece more than there are separators |
| `ClassNames.JoinSplit` | src/codeview.js:41-43 | joining the pieces of a split with the separator gives back the class name |
| `ClassNames.SplitJoin` | src/codeview.js:41-43 | splitting a join of separator-free pieces gives back exactly those pieces |
| `ClassNames.Segment` | src/codeview.js:41-45 | `className.split("-")[k]` is present iff the class has at least `k` separators, and a present segment holds no separator |
| `ClassNames.FenceLang` | src/codeview.js:45-46 | a fence announces a language iff its segment 2 exists and is non-empty (JavaScript truthiness), and then the language is that segment |
| `ClassNames.LabelOfPieces` | src/codeview.js:40-47 | for a class `a-b-c-…`, the display name is `b.c`, and the language is `c` unless `c` is empty |
| `ClassNames.LabelOfShortClass` | src/codeview.js:40-47 | a class with fewer than three segments gets the text `undefined` for each missing segment in its name, and announces no language |
| `ClassNames.Label` | src/codeview.js:40-44 | the display name of a fence holds a dot and never the `-` separator, since each segment is separator-free and a missing one prints as `undefined` |
| `Scraper.Scrape` | src/codeview.js:32-48 | `codes` and `names` have one entry per fence, index-aligned in document order: entry `i` is fence `i`'s text and fence `i`'s label. The language is `LangOf(fences)` |
| `Scraper.LangOf` | src/codeview.js:35-47 | the language after the scrape loop is never empty and never holds the separator: it is the default or a non-empty segment |
| `Scraper.LangDefault` | src/codeview.js:18-35 | when no fence announces a language, the page language is `DEFAULT_LANG` = "rust" |
| `Scraper.LangLastWins` | src/codeview.js:45-47 | the last fence that announces a language decides the page language |
| `Scraper.LangComesFromAFence` | src/codeview.js:35-47 | the page language is either the default or a language some fence announced |
| `Layout.Page` | src/codeview.js:96-116 | with fences, the joined page is the fixed two-column head, the html, then the code column. With none, it is exactly `<div class="fullpage">` + html + `</div>` |
| `Layout.Concat` | src/codeview.js:105 | `join('')` of the pieces; what it yields is stated by `ConcatSplit` and `Concat3` |
| `Layout.ConcatSplit` | src/codeview.js:105 | joining two runs of pieces is joining each run and concatenating the results |
| `Layout.Concat3` | src/codeview.js:113 | joining three pieces concatenates them in order |
| `Layout.TwoColumnIffMatched` | src/codeview.js:96-116 | the page is two-column iff at least one fence matched, and full-page iff none did |
| `Layout.LessonRoundTrip` | src/codeview.js:97-113 | both layouts keep the rendered html verbatim: unwrapping the page returns it |
| `Layout.MountPoints` | src/codeview.js:99-103 | a two-column page has the `editor` div, then the `editor_bar` div, right after the lesson column |
| `Layout.PieceAt` | src/codeview.js:99-103 | in the joined page, each piece starts right where the pieces before it end |
| `Selector.Options` | src/codeview.js:60-66 | one option per name; option `i` has value `i` and label `names[i]` |
| `Selector.Select.constructor` | src/codeview.js:57-58 | a new select carries its id, holds no options and selects nothing |
| `Selector.Select.AppendChild` | src/codeview.js:64 | the option goes last; the first option appended to an empty select becomes selected |
| `Selector.Select.AddOptions` | src/codeview.js:59-66 | the `forEach` loop leaves the select holding exactly `Options(names)`, with the first option selected when there is one |
| `Selector.Select.Choose` | src/codeview.js:67-68 | picking option `i` makes `i` the selected index that the change handler reads |
| `Selector.NewSelect` | src/codeview.js:57-66 | the block that builds each selector yields a new `select` with the given id, holding `Options(names)` and selecting the first option when there is one |
| `Editor.CurrentView` | src/codeview.js:236-244 | nothing iff there is no saved state; the saved state's `modified` sub-state when it has one; otherwise the saved state itself |
| `Editor.ModifiedOf` | src/codeview.js:238 | `view_state.modified` is present iff the state is a pane pair whose modified sub-state is set, and then it is that sub-state |
| `Editor.Retire` | src/codeview.js:172-175 | a held editor first has its view saved, then is disposed, both by its identity; with no editor, nothing happens |
| `Editor.AppendEvent` | src/codeview.js:172-187 | appending an event that may follow keeps the history disciplined: a creation adds a new instance to the live set and a disposal removes a live one |
| `Editor.Held` | src/codeview.js:172 | the held editor contributes exactly its own identity to the live set, and no editor contributes nothing |
| `Editor.RetireKeepsInvariant` | src/codeview.js:172-175 | retiring the held editor, when it is the only live instance, keeps the history disciplined, leaves no instance live and creates none |
| `Editor.LoadKeepsInvariant` | src/codeview.js:172-187 | when the only live instance is the held editor, a load leaves the new instance as the only live one and the held editor. The old one was saved and then disposed, the history stays disciplined and every identity stays below the next one handed out |
| `Editor.LoadAddsOneInstance` | src/codeview.js:172-187 | a load adds exactly one instance to those ever created, and that instance is new |
| `Editor.IndexOf` | src/codeview.js:196 | the first position at which an element occurs in the document's element list |
| `Editor.Remove` | src/codeview.js:230-233 | removing an element drops its first occurrence, the rest keeping their document order; an element not in the document leaves it unchanged |
| `Editor.Window.constructor` | src/codeview.js:172 | before the plugin runs there is no session, no editor, no saved view state and an empty history |
| `Editor.Env.constructor` | src/codeview.js:51-54 | the session record holds the scraped codes and language and both selectors, with no template text |
| `Editor.Window.AfterEach` | src/codeview.js:25-116 | publishes a fresh `cv_env`. Its codes are the fence texts in order and its language is `LangOf(fences)`. Both selectors hold the same options, option `i` = (`i`, label of fence `i`). Returns the page `Page` builds for the html and the number of fences |
| `Editor.Window.RemoveElement` | src/codeview.js:230-234 | an absent element changes nothing; a present one is detached from the document |
| `Editor.Window.FirstTab` | src/codeview.js:196 | `getElementsByClassName("docsify-tabs")[0]` is absent iff there is no such element; removing it drops the first one |
| `Editor.Window.RemoveFirstTab` | src/codeview.js:196 | the first `docsify-tabs` element, if any, leaves the document and the others stay in order |
| `Editor.Window.RetireEditor` | src/codeview.js:172-175 | a held editor has its view saved into `view_state` and is then disposed, both recorded by its identity; afterwards nothing is live. With no editor, `view_state` and the history are unchanged |
| `Editor.Window.Install` | src/codeview.js:177-184 | the created instance becomes the held editor and the only live one, with the next identity, and the window invariant holds again |
| `Editor.Window.LoadEditor` | src/codeview.js:167-198 | any old editor's view is saved into `view_state` before it is disposed, and `view_state` is unchanged when there was none. Afterwards exactly one single editor holds `text`, with the requested read-only and tracking flags and the restored `CurrentView`. The new instance is the only live one |
| `Editor.Window.LoadDiffEditor` | src/codeview.js:200-228 | the same save-then-dispose order. Afterwards exactly one diff editor holds the original and modified texts and restores `{ original: currentView() }`. The new instance is the only live one |
| `Editor.Window.FileSelectorChanged` | src/codeview.js:67-70 | choosing file option `i` loads `codes[i]`, editable, with no template tracking |
| `Editor.Window.DiffSelectorChanged` | src/codeview.js:82-89 | choosing diff option `d` while the file selector holds `s` loads a diff of `codes[s]` against `codes[d]` |
| `Editor.Window.ContentChanged` | src/codeview.js:188-191 | an edit sets `code_template` to the editor's new text when tracking is on, and leaves it unwritten otherwise |
| `Editor.DiffThenFile` | src/codeview.js:67-89 | on a page with two fences, the user picks fence 1 in the diff selector, then picks fence 1 in the file selector. The single editor then opens fence 1 at the position saved in the diff's modified pane |
| `Editor.PickDiffThenFile` | src/codeview.js:67-89 | on a published session, picking diff option 1 and then file option 1 leaves a single editor on snippet 1 restored at the position saved in the diff's modified pane |
| `Editor.PickDiff` | src/codeview.js:82-89 | picking diff option 1 while file option 0 is selected opens a diff of snippet 0 against snippet 1 |
| `Editor.PickFile` | src/codeview.js:67-70 | picking file option 1 while an editor is open saves its view and opens snippet 1, editable, restored at `CurrentView` of that saved view |

## Left out

- The Monaco worker URL proxy and `require.config` (src/codeview.js:1-16) are not modelled. They are string templating for a CDN worker and network loading.
- The browser DOM is replaced by plain values. `DOMParser` and `querySelectorAll` become an input list of `Fence(className, text)` values, and `innerText` is the fence's `text`. Of the document, only the `docsify-tabs` elements are modelled, as handles.
- Monaco itself is left out: `editor.create`, `createDiffEditor`, `createModel`, `setModel`, `restoreViewState` and `dispose`. An editor is a value that records its texts, language, flags and the view state passed to `restoreViewState`. What `saveViewState` returns is the `reported` parameter of each load. The effect of a restore on the widget is not modelled.
- The asynchronous `require([...], callback)` in both loads is modelled as running its callback at once. Interleavings of pending loads are not modelled.
- The `doneEach` hook (src/codeview.js:119-125) only mounts the two selectors into `editor_bar`, so it is not modelled.
- `hintRevealed`, the `console.log` calls and the theme, minimap and layout options passed to Monaco are not modelled.
- The role-based buttons (src/codeview.js:126-161) are commented out, so they are not modelled.
- `DEFAULT_CONTENT` (src/codeview.js:19) is declared but never used, so it is not modelled.
- In the browser, option values are strings that the handlers turn back into numbers or use as array keys. The model stores them as the natural numbers they denote.
- The unused outer `idx` at src/codeview.js:59 and the `idx += 1` in both `forEach` callbacks have no effect, so they are not modelled.
