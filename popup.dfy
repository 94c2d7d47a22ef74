/** The popup page: two input fields, the stored prompt list, the list
    container and the toast notifications, with the handlers that move
    between them. Storage reads and writes happen in place on the `stored`
    field; whether the backend call succeeds is a parameter of each handler,
    and so are the id and timestamp a new prompt receives. */
module Popup {
  import opened JsTrim
  import opened PromptList
  import opened PromptView

  /** The toast messages the store and its handlers show. */
  datatype Toast =
    | FillInBoth   // "Please fill in both title and text"
    | Added        // "Prompt added successfully!"
    | AddError     // "Error adding prompt"
    | Deleted      // "Prompt deleted"
    | DeleteError  // "Error deleting prompt"
    | LoadError    // "Error loading prompts"
    | SaveError    // "Error saving prompts"

  /** The add handler's guard: both fields hold something besides white
      space. */
  predicate Accepts(title: string, text: string) {
    Trim(title) != [] && Trim(text) != []
  }

  /** The record the add handler builds from the current field values. */
  function NewPrompt(id: string, titleInput: string, textInput: string, now: string): (p: Prompt)
    requires Accepts(titleInput, textInput)
    ensures p.id == id && p.createdAt == now
    ensures p.title == Trim(titleInput) && p.text == Trim(textInput)
    ensures WellFormedPrompt(p)
  {
    TrimIsMiddleSlice(titleInput);
    TrimIsMiddleSlice(textInput);
    Prompt(id, Trim(titleInput), Trim(textInput), now)
  }

  /** The list the add handler writes, `[NewPrompt(..)] + old`, keeps every
      record well formed, and keeps the ids unique when the fresh id is not
      already in use (the add handler does not check that it is). */
  lemma {:induction false} AddedListInvariants(ps: seq<Prompt>, id: string, titleInput: string, textInput: string, now: string)
    requires Accepts(titleInput, textInput)
    ensures WellFormed(ps) ==> WellFormed([NewPrompt(id, titleInput, textInput, now)] + ps)
    ensures UniqueIds(ps) && id !in Ids(ps) ==> UniqueIds([NewPrompt(id, titleInput, textInput, now)] + ps)
  {
    var p := NewPrompt(id, titleInput, textInput, now);
    if WellFormed(ps) { PrependWellFormed(ps, p); }
    if UniqueIds(ps) { PrependUnique(ps, p); }
  }

  class PromptManager {
    /** `promptTitleInput.value` and `promptTextInput.value`. */
    var titleInput: string
    var textInput: string
    /** The value under the key "prompts" in synchronized storage. */
    var stored: Option<seq<Prompt>>
    /** The children of the list container. */
    var view: seq<Element>
    /** Every toast shown so far, oldest first. */
    var toasts: seq<Toast>

    /** A freshly opened popup over the given storage contents. What
        popup.html places in the container before the first render is not
        part of this model; the container starts out empty here. */
    constructor (storage: Option<seq<Prompt>>)
      ensures stored == storage
      ensures titleInput == [] && textInput == []
      ensures view == [] && toasts == []
    {
      stored := storage;
      titleInput, textInput := [], [];
      view, toasts := [], [];
    }

    /** `renderPrompts`: clear the container, then either show the
        placeholder or append one card per prompt. */
    method Render(prompts: seq<Prompt>)
      modifies this`view
      ensures view == Rendered(prompts)
    {
      view := [];
      if |prompts| == 0 {
        view := [EmptyState];
        return;
      }
      for i := 0 to |prompts|
        invariant view == CardsOf(prompts[..i])
      {
        assert prompts[..i + 1] == prompts[..i] + [prompts[i]];
        CardsOfSnoc(prompts[..i], prompts[i]);
        view := view + [CardOf(prompts[i])];
      }
      assert prompts[..|prompts|] == prompts;
    }

    /** `loadPrompts`: on a successful read, render the stored list, an
        absent value rendering as the empty list; a failed read only shows an
        error. */
    method Load(readOk: bool)
      modifies this`view, this`toasts
      ensures readOk ==> view == Rendered(OrEmpty(stored)) && toasts == old(toasts)
      ensures !readOk ==> view == old(view) && toasts == old(toasts) + [LoadError]
    {
      if !readOk {
        toasts := toasts + [LoadError];
        return;
      }
      Render(OrEmpty(stored));
    }

    /** `savePrompts`: write the whole list. A failed write is caught here:
        it leaves the old value in place, shows an error and returns
        normally to the caller. */
    method Save(prompts: seq<Prompt>, writeOk: bool)
      modifies this`stored, this`toasts
      ensures writeOk ==> stored == Some(prompts) && OrEmpty(stored) == prompts
      ensures writeOk ==> toasts == old(toasts)
      ensures !writeOk ==> stored == old(stored) && toasts == old(toasts) + [SaveError]
    {
      if writeOk {
        stored := Some(prompts);
      } else {
        toasts := toasts + [SaveError];
      }
    }

    /** `addPrompt`. Rejected input changes nothing but the toasts. A failed
        read aborts with an error. Otherwise the new record is put in front
        of the list read, the list is written back, and, whether or not the
        write succeeded, the fields are cleared, the new list is rendered and
        success is reported. That the list written keeps the list's
        invariants is AddedListInvariants. */
    method Add(freshId: string, now: string, readOk: bool, writeOk: bool)
      modifies this
      ensures !Accepts(old(titleInput), old(textInput)) ==>
        stored == old(stored) && titleInput == old(titleInput) && textInput == old(textInput) &&
        view == old(view) && toasts == old(toasts) + [FillInBoth]
      ensures Accepts(old(titleInput), old(textInput)) && !readOk ==>
        stored == old(stored) && titleInput == old(titleInput) && textInput == old(textInput) &&
        view == old(view) && toasts == old(toasts) + [AddError]
      ensures Accepts(old(titleInput), old(textInput)) && readOk ==>
        titleInput == [] && textInput == []
      ensures Accepts(old(titleInput), old(textInput)) && readOk ==>
        var ps := [Prompt(freshId, Trim(old(titleInput)), Trim(old(textInput)), now)] + OrEmpty(old(stored));
        stored == (if writeOk then Some(ps) else old(stored)) && view == Rendered(ps)
      ensures Accepts(old(titleInput), old(textInput)) && readOk ==>
        toasts == old(toasts) + (if writeOk then [] else [SaveError]) + [Added]
    {
      if !Accepts(titleInput, textInput) {
        toasts := toasts + [FillInBoth];
        return;
      }
      if !readOk {
        toasts := toasts + [AddError];
        return;
      }
      var prompts := OrEmpty(stored);
      var newPrompt := NewPrompt(freshId, titleInput, textInput, now);
      prompts := [newPrompt] + prompts;
      Save(prompts, writeOk);
      titleInput, textInput := [], [];
      Render(prompts);
      toasts := toasts + [Added];
    }

    /** `deletePrompt`. A failed read aborts with an error, and so does a
        card lookup that throws: the selector `[data-prompt-id="<id>"]` is
        built from the id without escaping, and `lookupOk` says whether
        `querySelector` accepted it. Otherwise every record with the id is
        filtered out, the list is written back, and, whether or not the
        write succeeded, the filtered list is rendered and the deletion is
        reported. */
    method Delete(id: string, readOk: bool, lookupOk: bool, writeOk: bool)
      modifies this`stored, this`view, this`toasts
      ensures !(readOk && lookupOk) ==>
        stored == old(stored) && view == old(view) && toasts == old(toasts) + [DeleteError]
      ensures readOk && lookupOk ==>
        var ps := Without(OrEmpty(old(stored)), id);
        stored == (if writeOk then Some(ps) else old(stored)) && view == Rendered(ps) &&
        toasts == old(toasts) + (if writeOk then [] else [SaveError]) + [Deleted]
      ensures WellFormed(OrEmpty(old(stored))) ==> WellFormed(OrEmpty(stored))
      ensures UniqueIds(OrEmpty(old(stored))) ==> UniqueIds(OrEmpty(stored))
    {
      if !readOk || !lookupOk {
        toasts := toasts + [DeleteError];
        return;
      }
      var prompts := OrEmpty(stored);
      var updated := Without(prompts, id);
      WithoutPreserves(prompts, id);
      Save(updated, writeOk);
      Render(updated);
      toasts := toasts + [Deleted];
    }
  }

  /** An empty store, then a title and a text that need no trimming (as
      "Greeting" and "Hello!") added: one record in storage, one card on
      screen, no placeholder. */
  method FirstAddScenario(x: string, now: string, title: string, text: string)
    requires title != [] && text != [] && IsTrimmed(title) && IsTrimmed(text)
  {
    var m := new PromptManager(None);
    m.titleInput, m.textInput := title, text;
    TrimOfTrimmed(title);
    TrimOfTrimmed(text);
    m.Add(x, now, true, true);
    var p := NewPrompt(x, title, text, now);
    assert p == Prompt(x, title, text, now);
    assert [p] + OrEmpty(None) == [p];
    assert m.stored == Some([p]);
    RenderedNonEmpty([p]);
    assert m.view == [Card(x, title, text)];
    assert m.titleInput == [] && m.textInput == [];
    assert m.toasts == [Added];
  }

  /** A store holding one record with id "123"; deleting "123" empties it
      and brings back the placeholder. */
  method DeleteOnlyScenario(p: Prompt)
    requires p.id == "123"
  {
    var m := new PromptManager(Some([p]));
    m.Delete("123", true, true, true);
    assert [p][1..] == [];
    assert m.stored == Some([]);
    assert m.view == [EmptyState];
  }

  /** An empty title is rejected and the list stays as it was. */
  method EmptyTitleScenario(storage: Option<seq<Prompt>>, id: string, now: string)
  {
    var m := new PromptManager(storage);
    m.titleInput, m.textInput := "", "text";
    m.Add(id, now, true, true);
    assert m.stored == storage && m.toasts == [FillInBoth];
  }

  /** A write that fails inside add: storage keeps its old value, yet the
      fields are cleared, the prepended list is shown and success is
      reported after the save error. */
  method FailedWriteScenario(storage: Option<seq<Prompt>>, id: string, now: string,
                             title: string, text: string)
    requires Accepts(title, text)
  {
    var m := new PromptManager(storage);
    m.titleInput, m.textInput := title, text;
    assert Accepts(m.titleInput, m.textInput);
    m.Add(id, now, true, false);
    var p := NewPrompt(id, title, text, now);
    assert m.stored == storage;
    assert m.titleInput == [] && m.textInput == [];
    assert m.view == Rendered([p] + OrEmpty(storage));
    assert [] + [SaveError] + [Added] == [SaveError, Added];
    assert m.toasts == [SaveError, Added];
  }
}
