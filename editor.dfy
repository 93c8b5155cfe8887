/**
 * The page-global state the script keeps on `window` and the editor
 * controller that swaps the single editor instance: `cv_env` (the session
 * record built by the `afterEach` hook), `monaco_editor`, `view_state` and
 * the `docsify-tabs` elements that every load removes.
 */
module Editor {
  import opened Wrappers
  import opened ClassNames
  import opened Scraper
  import opened Layout
  import opened Selector

  /**
   * The editor widget's view state. It is opaque, except that the state of a
   * diff editor and the object the script builds for one hold `original` and
   * `modified` sub-states, each possibly absent.
   */
  datatype ViewState =
    | Snapshot(token: nat)
    | Panes(original: Option<ViewState>, modified: Option<ViewState>)

  /** `state.modified`: present only on a pane pair whose modified sub-state is set. */
  function ModifiedOf(state: ViewState): (m: Option<ViewState>)
    ensures m.Some? <==> state.Panes? && state.modified.Some?
    ensures m.Some? ==> m == state.modified
  {
    if state.Panes? then state.modified else None
  }

  /**
   * `currentView()`: nothing without a saved state; the saved state's
   * `modified` sub-state when it has one; otherwise the saved state itself.
   */
  function CurrentView(saved: Option<ViewState>): (view: Option<ViewState>)
    ensures view.None? <==> saved.None?
    ensures saved.Some? && ModifiedOf(saved.value).Some? ==> view == ModifiedOf(saved.value)
    ensures saved.Some? && ModifiedOf(saved.value).None? ==> view == saved
  {
    match saved
    case None => None
    case Some(state) =>
      match ModifiedOf(state)
      case Some(m) => Some(m)
      case None => Some(state)
  }

  /**
   * The one editor instance: a single-file editor or a read-only diff
   * editor. `id` is the instance's identity: every creation gets a new one,
   * and edits to the text keep it.
   */
  datatype Editor =
    | Single(id: nat, text: string, language: string, readOnly: bool, tracksTemplate: bool, restored: Option<ViewState>)
    | Diff(id: nat, original: string, modified: string, language: string, restored: Option<ViewState>)

  /** What happens to editor instances, in order: a view state saved from one, one disposed, one created. */
  datatype Event =
    | Saved(editor: nat, state: Option<ViewState>)
    | Disposed(editor: nat)
    | Created(editor: nat)

  /** The instances created and not yet disposed after a history of events. */
  function Live(log: seq<Event>): set<nat> {
    if log == [] then {}
    else
      var before := Live(log[..|log| - 1]);
      match log[|log| - 1]
      case Created(i) => before + {i}
      case Disposed(i) => before - {i}
      case Saved(_, _) => before
  }

  /** Every instance ever created in a history of events. */
  function Ever(log: seq<Event>): set<nat> {
    if log == [] then {}
    else
      var before := Ever(log[..|log| - 1]);
      match log[|log| - 1]
      case Created(i) => before + {i}
      case _ => before
  }

  /**
   * An event may follow a history when a view state is saved only from a
   * live instance, a disposal hits a live instance straight after a save from
   * it, and a creation makes an instance never seen before.
   */
  ghost predicate MayFollow(before: seq<Event>, e: Event) {
    match e
    case Saved(i, _) => i in Live(before)
    case Disposed(i) =>
      i in Live(before) && |before| > 0 &&
      before[|before| - 1].Saved? && before[|before| - 1].editor == i
    case Created(i) => i !in Ever(before)
  }

  /** Every event of the history may follow the events before it. */
  ghost predicate Disciplined(log: seq<Event>) {
    forall k {:trigger MayFollow(log[..k], log[k])} :: 0 <= k < |log| ==> MayFollow(log[..k], log[k])
  }

  /** Appending an event that may follow keeps the history disciplined, and updates the live and created instances. */
  lemma AppendEvent(log: seq<Event>, e: Event)
    requires Disciplined(log) && MayFollow(log, e)
    ensures Disciplined(log + [e])
    ensures e.Created? ==> Live(log + [e]) == Live(log) + {e.editor} && Ever(log + [e]) == Ever(log) + {e.editor}
    ensures e.Disposed? ==> Live(log + [e]) == Live(log) - {e.editor} && Ever(log + [e]) == Ever(log)
    ensures e.Saved? ==> Live(log + [e]) == Live(log) && Ever(log + [e]) == Ever(log)
  {
    var after := log + [e];
    assert after[..|log|] == log;
    forall k | 0 <= k < |after| ensures MayFollow(after[..k], after[k]) {
      if k < |log| {
        assert after[..k] == log[..k];
      }
    }
  }

  /** Every identity created in the history is below `bound`. */
  ghost predicate IdsBelow(log: seq<Event>, bound: nat) {
    forall i :: i in Ever(log) ==> i < bound
  }

  /** The instance an optional editor contributes to the live set. */
  function Held(editor: Option<Editor>): (ids: set<nat>)
    ensures editor.None? <==> ids == {}
    ensures editor.Some? ==> editor.value.id in ids && |ids| == 1
  {
    if editor.Some? then {editor.value.id} else {}
  }

  /** The events a load adds before creating its editor: save then dispose, when an editor exists. */
  function Retire(current: Option<Editor>, reported: Option<ViewState>): (events: seq<Event>)
    ensures current.None? ==> events == []
    ensures current.Some? ==> |events| == 2 && events[0] == Saved(current.value.id, reported)
    ensures current.Some? ==> events[1] == Disposed(current.value.id)
  {
    if current.Some? then [Saved(current.value.id, reported), Disposed(current.value.id)] else []
  }

  /**
   * The history invariant of the window: every event may follow the ones
   * before it, the live instances are exactly the held editor, and every
   * identity handed out so far is below `next`.
   */
  ghost predicate Inv(log: seq<Event>, editor: Option<Editor>, next: nat) {
    Disciplined(log) && Live(log) == Held(editor) && IdsBelow(log, next)
  }

  /** Retiring the held editor leaves a disciplined history with nothing live and no new instance. */
  lemma RetireKeepsInvariant(log: seq<Event>, current: Option<Editor>, reported: Option<ViewState>)
    requires Disciplined(log) && Live(log) == Held(current)
    ensures Disciplined(log + Retire(current, reported))
    ensures Live(log + Retire(current, reported)) == {}
    ensures Ever(log + Retire(current, reported)) == Ever(log)
  {
    if current.Some? {
      var i := current.value.id;
      AppendEvent(log, Saved(i, reported));
      AppendEvent(log + [Saved(i, reported)], Disposed(i));
      assert log + [Saved(i, reported)] + [Disposed(i)] == log + Retire(current, reported);
    } else {
      assert log + Retire(current, reported) == log;
    }
  }

  /**
   * One load, from a history whose only live instance is the held editor,
   * leaves the new instance as the only live one, and keeps the history
   * disciplined: the old one had its view saved and then was disposed.
   */
  lemma LoadKeepsInvariant(log: seq<Event>, current: Option<Editor>, reported: Option<ViewState>, created: Editor)
    requires Inv(log, current, created.id)
    ensures Inv(log + Retire(current, reported) + [Created(created.id)], Some(created), created.id + 1)
    ensures Live(log + Retire(current, reported) + [Created(created.id)]) == {created.id}
  {
    var mid := log + Retire(current, reported);
    RetireKeepsInvariant(log, current, reported);
    AppendEvent(mid, Created(created.id));
    assert IdsBelow(mid + [Created(created.id)], created.id + 1);
  }

  /** A load adds exactly one instance to those ever created: the new one. */
  lemma LoadAddsOneInstance(log: seq<Event>, current: Option<Editor>, reported: Option<ViewState>, next: nat)
    requires Inv(log, current, next)
    ensures Ever(log + Retire(current, reported) + [Created(next)]) == Ever(log) + {next}
    ensures next !in Ever(log)
  {
    RetireKeepsInvariant(log, current, reported);
    AppendEvent(log + Retire(current, reported), Created(next));
  }

  /** Position of the first occurrence of `element` in the document's element list. */
  function IndexOf(elements: seq<nat>, element: nat): (k: nat)
    requires element in elements
    ensures k < |elements| && elements[k] == element && element !in elements[..k]
  {
    if elements[0] == element then 0
    else
      assert element in elements[1..] by { assert elements == [elements[0]] + elements[1..]; }
      var k := IndexOf(elements[1..], element) + 1;
      assert elements[..k] == [elements[0]] + elements[1..][..k - 1];
      k
  }

  /**
   * `parent.removeChild(element)`: the document's element list without that
   * element, the others keeping their document order.
   */
  function Remove(elements: seq<nat>, element: nat): (rest: seq<nat>)
    ensures element !in elements ==> rest == elements
    ensures element in elements ==>
      rest == elements[..IndexOf(elements, element)] + elements[IndexOf(elements, element) + 1..]
    ensures multiset(rest) == multiset(elements) - multiset{element}
  {
    if element in elements then
      var k := IndexOf(elements, element);
      assert elements == elements[..k] + [elements[k]] + elements[k + 1..];
      elements[..k] + elements[k + 1..]
    else
      elements
  }

  /**
   * `window.cv_env`: the session record of one rendered page. The two
   * selectors offer the same options, one per snippet, valued by index.
   */
  class Env {
    var codes: seq<string>
    var lang: string
    var selector: Select
    var diff: Select
    var codeTemplate: Option<string>

    ghost predicate Valid()
      reads this, selector, diff
    {
      selector != diff && selector.Valid() && diff.Valid() &&
      |selector.options| == |codes| && diff.options == selector.options &&
      forall i :: 0 <= i < |codes| ==> selector.options[i].value == i
    }

    /** `{ codes: code_nodes, lang: lang }`, then `env.selector` and `env.diff` assigned. */
    constructor (codes: seq<string>, lang: string, selector: Select, diff: Select)
      ensures this.codes == codes && this.lang == lang
      ensures this.selector == selector && this.diff == diff && codeTemplate == None
    {
      this.codes := codes;
      this.lang := lang;
      this.selector := selector;
      this.diff := diff;
      codeTemplate := None;
    }
  }

  /** The globals of the browser window that the plugin reads and writes. */
  class Window {
    var cvEnv: Env?
    var editor: Option<Editor>
    var viewState: Option<ViewState>
    /** The elements of class `docsify-tabs`, in document order. */
    var tabs: seq<nat>
    /** The identity the next editor instance receives. */
    var nextId: nat
    /** The history of editor saves, disposals and creations. */
    ghost var log: seq<Event>

    /**
     * The live instances are exactly the held editor (none when there is
     * none), every event of the history may follow the ones before it, and
     * every identity handed out so far is below `nextId`.
     */
    ghost predicate Valid()
      reads this`log, this`editor, this`nextId
    {
      Inv(log, editor, nextId)
    }

    /** A page before the plugin has run: no session, no editor, no saved view. */
    constructor (tabs: seq<nat>)
      ensures Valid() && cvEnv == null && editor == None && viewState == None
      ensures this.tabs == tabs && log == []
    {
      nextId := 0;
      cvEnv := null;
      editor := None;
      viewState := None;
      this.tabs := tabs;
      log := [];
    }

    /**
     * The `afterEach` hook: scrape the fences, build the session record with
     * both selectors, publish it as `cv_env` and return the wrapped page.
     */
    method AfterEach(html: string, fences: seq<Fence>) returns (page: string)
      requires Valid()
      modifies this`cvEnv
      ensures Valid()
      ensures cvEnv != null && fresh(cvEnv) && fresh(cvEnv.selector) && fresh(cvEnv.diff) && cvEnv.Valid()
      ensures |cvEnv.codes| == |fences| && forall i :: 0 <= i < |fences| ==> cvEnv.codes[i] == fences[i].text
      ensures cvEnv.lang == LangOf(fences) && cvEnv.codeTemplate == None
      ensures cvEnv.selector.id == "file-selector" && cvEnv.diff.id == "diff-selector"
      ensures |cvEnv.selector.options| == |fences|
      ensures forall i :: 0 <= i < |fences| ==>
        cvEnv.selector.options[i] == SelectOption(i, Label(fences[i].className))
      ensures cvEnv.selector.selectedIndex == cvEnv.diff.selectedIndex == if fences == [] then -1 else 0
      ensures page == Page(html, |fences|)
    {
      var codes, names, lang := Scrape(fences);
      var selector := NewSelect("file-selector", names);
      var diff := NewSelect("diff-selector", names);
      assert forall i :: 0 <= i < |fences| ==> selector.options[i] == SelectOption(i, Label(fences[i].className));
      var env := new Env(codes, lang, selector, diff);
      assert env.Valid();
      cvEnv := env;
      page := Page(html, |fences|);
    }

    /** `removeElement(element)`: detach it when given; an absent element changes nothing. */
    method RemoveElement(element: Option<nat>)
      modifies this`tabs
      ensures tabs == if element.None? then old(tabs) else Remove(old(tabs), element.value)
    {
      if element.Some? {
        tabs := Remove(tabs, element.value);
      }
    }

    /** `document.getElementsByClassName("docsify-tabs")[0]`. */
    function FirstTab(): (element: Option<nat>)
      reads this
      ensures element.None? <==> tabs == []
      ensures element.Some? ==> Remove(tabs, element.value) == tabs[1..]
    {
      if tabs == [] then None else Some(tabs[0])
    }

    /** `removeElement(document.getElementsByClassName("docsify-tabs")[0])`: the first tab element, if any, leaves the document. */
    method RemoveFirstTab()
      modifies this`tabs
      ensures tabs == if old(tabs) == [] then [] else old(tabs)[1..]
    {
      RemoveElement(FirstTab());
    }

    /**
     * `if (window.monaco_editor) { view_state = saveViewState(); dispose() }`:
     * a held editor has its view saved, then is disposed; nothing is live after.
     */
    method RetireEditor(reported: Option<ViewState>)
      requires Valid()
      modifies this`viewState, this`log
      ensures viewState == if editor.Some? then reported else old(viewState)
      ensures log == old(log) + Retire(editor, reported)
      ensures Disciplined(log) && Live(log) == {} && IdsBelow(log, nextId)
    {
      RetireKeepsInvariant(log, editor, reported);
      if editor.Some? {
        viewState := reported;
      }
      log := log + Retire(editor, reported);
    }

    /** `window.monaco_editor = …create(…)`: a new instance becomes the held editor and the only live one. */
    method Install(created: Editor)
      requires Disciplined(log) && Live(log) == {} && IdsBelow(log, nextId) && created.id == nextId
      modifies this`editor, this`log, this`nextId
      ensures Valid() && editor == Some(created) && nextId == old(nextId) + 1
      ensures log == old(log) + [Created(created.id)]
    {
      AppendEvent(log, Created(nextId));
      log := log + [Created(nextId)];
      editor := Some(created);
      nextId := nextId + 1;
    }

    /**
     * `loadEditor(text, readOnly, templateUpdate)` with its callback run at
     * once; `reported` is what the widget's `saveViewState` returns.
     */
    method LoadEditor(text: string, readOnly: bool, templateUpdate: bool, reported: Option<ViewState>)
      requires Valid() && cvEnv != null
      modifies this`editor, this`viewState, this`log, this`tabs, this`nextId
      ensures Valid() && Live(log) == {old(nextId)} && nextId == old(nextId) + 1
      ensures viewState == if old(editor).Some? then reported else old(viewState)
      ensures editor == Some(Single(old(nextId), text, cvEnv.lang, readOnly, templateUpdate, CurrentView(viewState)))
      ensures log == old(log) + Retire(old(editor), reported) + [Created(old(nextId))]
      ensures tabs == if old(tabs) == [] then [] else old(tabs)[1..]
    {
      RetireEditor(reported);
      Install(Single(nextId, text, cvEnv.lang, readOnly, templateUpdate, CurrentView(viewState)));
      RemoveFirstTab();
    }

    /**
     * `loadDiffEditor(originalText, modifiedText)` with its callback run at
     * once. The view is restored as `{ original: currentView() }`.
     */
    method LoadDiffEditor(originalText: string, modifiedText: string, reported: Option<ViewState>)
      requires Valid() && cvEnv != null
      modifies this`editor, this`viewState, this`log, this`tabs, this`nextId
      ensures Valid() && Live(log) == {old(nextId)} && nextId == old(nextId) + 1
      ensures viewState == if old(editor).Some? then reported else old(viewState)
      ensures editor == Some(Diff(old(nextId), originalText, modifiedText, cvEnv.lang, Some(Panes(CurrentView(viewState), None))))
      ensures log == old(log) + Retire(old(editor), reported) + [Created(old(nextId))]
      ensures tabs == if old(tabs) == [] then [] else old(tabs)[1..]
    {
      RetireEditor(reported);
      Install(Diff(nextId, originalText, modifiedText, cvEnv.lang, Some(Panes(CurrentView(viewState), None))));
      RemoveFirstTab();
    }

    /** The file selector's `onchange`: load the chosen snippet, editable, without template tracking. */
    method FileSelectorChanged(env: Env, reported: Option<ViewState>)
      requires Valid() && cvEnv != null && env.Valid() && env.selector.selectedIndex >= 0
      modifies this`editor, this`viewState, this`log, this`tabs, this`nextId
      ensures Valid() && Live(log) == {old(nextId)} && nextId == old(nextId) + 1
      ensures viewState == if old(editor).Some? then reported else old(viewState)
      ensures editor == Some(Single(old(nextId), env.codes[env.selector.selectedIndex], cvEnv.lang, false, false, CurrentView(viewState)))
      ensures log == old(log) + Retire(old(editor), reported) + [Created(old(nextId))]
      ensures tabs == if old(tabs) == [] then [] else old(tabs)[1..]
    {
      var idx := env.selector.options[env.selector.selectedIndex].value;
      LoadEditor(env.codes[idx], false, false, reported);
    }

    /** The diff selector's `onchange`: diff the file selector's snippet against the chosen one. */
    method DiffSelectorChanged(env: Env, reported: Option<ViewState>)
      requires Valid() && cvEnv != null && env.Valid()
      requires env.selector.selectedIndex >= 0 && env.diff.selectedIndex >= 0
      modifies this`editor, this`viewState, this`log, this`tabs, this`nextId
      ensures Valid() && Live(log) == {old(nextId)} && nextId == old(nextId) + 1
      ensures viewState == if old(editor).Some? then reported else old(viewState)
      ensures editor == Some(Diff(old(nextId), env.codes[env.selector.selectedIndex], env.codes[env.diff.selectedIndex],
                                  cvEnv.lang, Some(Panes(CurrentView(viewState), None))))
      ensures log == old(log) + Retire(old(editor), reported) + [Created(old(nextId))]
      ensures tabs == if old(tabs) == [] then [] else old(tabs)[1..]
    {
      var sIdx := env.selector.options[env.selector.selectedIndex].value;
      var dIdx := env.diff.options[env.diff.selectedIndex].value;
      LoadDiffEditor(env.codes[sIdx], env.codes[dIdx], reported);
    }

    /**
     * The user edits the editable single editor. When it was loaded with
     * template tracking, its listener copies the new text into
     * `cv_env.code_template`; otherwise nothing else is written.
     */
    method ContentChanged(newText: string)
      requires Valid() && cvEnv != null
      requires editor.Some? && editor.value.Single? && !editor.value.readOnly
      modifies this`editor, cvEnv`codeTemplate
      ensures Valid() && cvEnv == old(cvEnv)
      ensures editor == Some(old(editor).value.(text := newText))
      ensures cvEnv.codeTemplate == if old(editor).value.tracksTemplate then Some(newText) else old(cvEnv.codeTemplate)
    {
      editor := Some(editor.value.(text := newText));
      if editor.value.tracksTemplate {
        cvEnv.codeTemplate := Some(editor.value.text);
      }
    }
  }

  /**
   * A page with two fences: the user picks the second in the diff selector,
   * scrolls the modified pane, then picks the second file; the single editor
   * comes back at the modified pane's position.
   */
  method DiffThenFile(tabs: seq<nat>, html: string, fences: seq<Fence>, original: Option<ViewState>, position: ViewState)
    returns (w: Window, page: string)
    requires |fences| >= 2
    ensures page == Page(html, |fences|)
    ensures w.editor.Some? && w.editor.value.Single?
    ensures w.editor.value == Single(w.editor.value.id, fences[1].text, LangOf(fences), false, false, Some(position))
    ensures w.viewState == Some(Panes(original, Some(position)))
  {
    w := new Window(tabs);
    page := w.AfterEach(html, fences);
    var env := w.cvEnv;
    assert env.codes[1] == fences[1].text && env.lang == LangOf(fences);
    PickDiffThenFile(w, env, original, position);
  }

  /**
   * On a published session with at least two snippets and the first file
   * option selected, the user picks option 1 in the diff selector and then
   * option 1 in the file selector.
   */
  method PickDiffThenFile(w: Window, env: Env, original: Option<ViewState>, position: ViewState)
    requires w.Valid() && w.cvEnv == env && env.Valid()
    requires |env.codes| >= 2 && env.selector.selectedIndex == 0
    modifies w`editor, w`viewState, w`log, w`tabs, w`nextId, env.selector`selectedIndex, env.diff`selectedIndex
    ensures w.editor.Some? && w.editor == Some(Single(w.editor.value.id, env.codes[1], env.lang, false, false, Some(position)))
    ensures w.viewState == Some(Panes(original, Some(position)))
  {
    PickDiff(w, env);
    PickFile(w, env, Some(Panes(original, Some(position))));
  }

  /** The user picks option 1 in the diff selector: a diff editor opens. */
  method PickDiff(w: Window, env: Env)
    requires w.Valid() && w.cvEnv == env && env.Valid()
    requires |env.codes| >= 2 && env.selector.selectedIndex == 0
    modifies w`editor, w`viewState, w`log, w`tabs, w`nextId, env.diff`selectedIndex
    ensures w.Valid() && env.Valid() && w.editor.Some? && w.editor.value.Diff?
    ensures w.editor.value.original == env.codes[0] && w.editor.value.modified == env.codes[1]
  {
    env.diff.Choose(1);
    w.DiffSelectorChanged(env, None);
  }

  /** The user picks option 1 in the file selector while an editor is open: its view is saved and restored into the new one. */
  method PickFile(w: Window, env: Env, reported: Option<ViewState>)
    requires w.Valid() && w.cvEnv == env && env.Valid()
    requires |env.codes| >= 2 && w.editor.Some?
    modifies w`editor, w`viewState, w`log, w`tabs, w`nextId, env.selector`selectedIndex
    ensures w.editor.Some? && w.editor == Some(Single(w.editor.value.id, env.codes[1], env.lang, false, false, CurrentView(reported)))
    ensures w.viewState == reported
  {
    env.selector.Choose(1);
    w.FileSelectorChanged(env, reported);
  }
}
