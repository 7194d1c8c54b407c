/** The keyboard-shortcut dispatcher of
    client/src/hooks/use-keyboard-shortcuts.tsx: a window key handler that
    ignores keys typed into editable elements, toggles the help modal on
    `?`, and otherwise runs the first registered shortcut that matches the
    key (case-insensitively) and the Alt/Ctrl/Shift modifiers. */
module Shortcuts {
  import opened Common

  /** What `KeyboardEvent.target` is, as far as the handler tests it. */
  datatype Target =
    | InputElement
    | TextAreaElement
    | OtherElement(isContentEditable: bool)
    | NotAnElement

  datatype KeyEvent = KeyEvent(key: string, altKey: bool, ctrlKey: bool, shiftKey: bool, target: Target)

  /** A registered shortcut; an omitted optional modifier is `None`. The
      action callback is identified by the shortcut's position in the list. */
  datatype Shortcut = Shortcut(key: string, altKey: Option<bool>, ctrlKey: Option<bool>,
                               shiftKey: Option<bool>, description: string)

  /** `toLowerCase` on one character (ASCII letters only). */
  function LowerChar(c: char): char
  {
    if 'A' <= c <= 'Z' then (c as int + 32) as char else c
  }

  /** `toLowerCase` on a string, character by character. */
  function Lower(s: string): (r: string)
    ensures |r| == |s|
    ensures forall i :: 0 <= i < |s| ==> r[i] == LowerChar(s[i])
  {
    if s == [] then [] else [LowerChar(s[0])] + Lower(s[1..])
  }

  /** `!!flag`: an omitted modifier counts as not required. */
  function Flag(o: Option<bool>): bool
  {
    match o
    case None => false
    case Some(b) => b
  }

  /** Keys typed into an input, a textarea or a contentEditable element are
      left to that element. */
  predicate IsEditable(t: Target)
  {
    t.InputElement? || t.TextAreaElement? || (t.OtherElement? && t.isContentEditable)
  }

  /** `?` without Alt and without Ctrl (Shift is not looked at). */
  predicate IsHelpKey(e: KeyEvent)
  {
    e.key == "?" && !e.altKey && !e.ctrlKey
  }

  /** The match test of the dispatch loop; matching keys have the same
      length. */
  predicate Matches(e: KeyEvent, s: Shortcut)
    ensures Matches(e, s) ==> |e.key| == |s.key|
  {
    Lower(e.key) == Lower(s.key) &&
    e.altKey == Flag(s.altKey) && e.ctrlKey == Flag(s.ctrlKey) && e.shiftKey == Flag(s.shiftKey)
  }

  /** Visibility of the help modal after the event: it changes exactly
      on the help key typed outside an editable element. */
  function ModalAfter(show: bool, e: KeyEvent): (r: bool)
    ensures r != show <==> !IsEditable(e.target) && IsHelpKey(e)
  {
    if !IsEditable(e.target) && IsHelpKey(e) then !show else show
  }

  /** Lower-casing twice is lower-casing once. */
  lemma LowerIdempotent(s: string)
    ensures Lower(Lower(s)) == Lower(s)
  {
    var once := Lower(s);
    assert forall i :: 0 <= i < |s| ==> Lower(once)[i] == once[i];
  }

  /** The case of the typed key does not matter: an event matches a
      shortcut exactly when the same event with its key lower-cased does,
      and likewise for the case of the registered key. */
  lemma MatchIgnoresCase(e: KeyEvent, s: Shortcut)
    ensures Matches(e, s) <==> Matches(e.(key := Lower(e.key)), s)
    ensures Matches(e, s) <==> Matches(e, s.(key := Lower(s.key)))
  {
    LowerIdempotent(e.key);
    LowerIdempotent(s.key);
  }

  /** Modifiers must agree exactly: a shortcut that omits a modifier (or
      sets it false) never fires while that modifier is held, and one that
      requires it never fires without it. */
  lemma ModifiersMustAgree(e: KeyEvent, s: Shortcut)
    ensures Matches(e, s) ==> (e.altKey <==> s.altKey == Some(true))
    ensures Matches(e, s) ==> (e.ctrlKey <==> s.ctrlKey == Some(true))
    ensures Matches(e, s) ==> (e.shiftKey <==> s.shiftKey == Some(true))
  {
  }

  /** `?` twice brings the help modal back to where it was; so does any
      event twice. */
  lemma ModalToggleTwiceRestores(show: bool, e: KeyEvent)
    ensures ModalAfter(ModalAfter(show, e), e) == show
    ensures IsHelpKey(e) && !IsEditable(e.target) ==> ModalAfter(show, e) == !show
  {
  }

  /** A registered `?` shortcut without Alt or Ctrl can never fire: every
      event it matches is a help key, which the handler consumes first. */
  lemma HelpKeyShadowsShortcut(e: KeyEvent, s: Shortcut)
    requires s.key == "?" && !Flag(s.altKey) && !Flag(s.ctrlKey)
    ensures Matches(e, s) ==> IsHelpKey(e)
  {
    if Matches(e, s) {
      assert Lower(s.key) == "?";
      assert |e.key| == 1 && LowerChar(e.key[0]) == '?';
      assert e.key == [e.key[0]];
    }
  }

  /** The `for ... of ... break` loop: the index of the first shortcut in
      list order that matches the event, if any. */
  method FindShortcut(shortcuts: seq<Shortcut>, e: KeyEvent) returns (found: Option<nat>)
    ensures found.Some? ==> found.value < |shortcuts| && Matches(e, shortcuts[found.value])
    ensures found.Some? ==> forall j :: 0 <= j < found.value ==> !Matches(e, shortcuts[j])
    ensures found.None? ==> forall j :: 0 <= j < |shortcuts| ==> !Matches(e, shortcuts[j])
  {
    found := None;
    var i := 0;
    while i < |shortcuts|
      invariant 0 <= i <= |shortcuts|
      invariant forall j :: 0 <= j < i ==> !Matches(e, shortcuts[j])
    {
      if Matches(e, shortcuts[i]) {
        found := Some(i);
        break;
      }
      i := i + 1;
    }
  }

  /** The hook's state: the registered shortcuts and whether the help
      modal is shown. */
  class ShortcutController {
    var shortcuts: seq<Shortcut>
    var showModal: bool

    /** Mounting the hook with its list of shortcuts. */
    constructor (shortcuts: seq<Shortcut>)
      ensures this.shortcuts == shortcuts && !showModal
    {
      this.shortcuts := shortcuts;
      showModal := false;
    }

    /** Re-running the effect with a new list of shortcuts. */
    method Register(shortcuts: seq<Shortcut>)
      modifies this`shortcuts
      ensures this.shortcuts == shortcuts
    {
      this.shortcuts := shortcuts;
    }

    /** The `keydown` handler. At most one shortcut fires (`fired` is its
        index); `prevented` is whether `preventDefault` was called. */
    method HandleKeyDown(e: KeyEvent) returns (fired: Option<nat>, prevented: bool)
      modifies this`showModal
      ensures showModal == ModalAfter(old(showModal), e)
      ensures IsEditable(e.target) ==> fired == None && !prevented
      ensures !IsEditable(e.target) && IsHelpKey(e) ==> fired == None && prevented
      ensures !IsEditable(e.target) && !IsHelpKey(e) ==>
        prevented == fired.Some? &&
        (fired.Some? ==> fired.value < |shortcuts| && Matches(e, shortcuts[fired.value]) &&
                         forall j :: 0 <= j < fired.value ==> !Matches(e, shortcuts[j])) &&
        (fired.None? ==> forall j :: 0 <= j < |shortcuts| ==> !Matches(e, shortcuts[j]))
    {
      if IsEditable(e.target) {
        return None, false;
      }
      if IsHelpKey(e) {
        showModal := !showModal;
        return None, true;
      }
      fired := FindShortcut(shortcuts, e);
      prevented := fired.Some?;
    }

    /** The modal's close button (`setShowShortcutsModal(false)`); also the
        setter the hook hands to its caller. */
    method SetShowModal(v: bool)
      modifies this`showModal
      ensures showModal == v
    {
      showModal := v;
    }
  }
}
