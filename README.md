# Prompt manager popup: the prompt store and its add/delete/render transitions

This project models the state logic of a browser-extension popup that keeps short text
"prompts". The popup keeps one ordered, newest-first list of `{id, title, text, createdAt}`
records in synchronized storage under the key `prompts`. It has four operations:

- **Add** trims both input fields and rejects the add if either one is then empty. It
  reads the list, puts a new record in front, writes the whole list back, clears the fields
  and re-renders.
- **Delete** reads the list, drops every record with the given id, writes the list back
  and re-renders.
- **Load** reads the list and renders it.
- **Render** fills the list container with either one empty-state placeholder or one card
  per prompt, in list order. Each card carries its prompt's id.

The project has four modules:

- `JsTrim` (`js_trim.dfy`): `String.prototype.trim` over the ECMAScript white-space and
  line-terminator code points. It is pure.
- `PromptList` (`prompt_list.dfy`): the `Prompt` record, `result.prompts || []` (`OrEmpty`)
  and the delete filter (`Without`). It also has two list invariants: records whose title
  and text are non-empty and trimmed (`WellFormed`), and ids that are all different
  (`UniqueIds`). Lemmas relate the list operations to these invariants. It is pure.
- `PromptView` (`prompt_view.dfy`): the list container as a sequence of `Element`s
  (`EmptyState`, or a `Card` tagged with its prompt's id), and `Rendered`, the container
  that rendering a list must produce. It is pure.
- `Popup` (`popup.dfy`): the class `PromptManager`. Its fields are the two input fields,
  the stored value (`Option<seq<Prompt>>`, where `None` means the key is absent), the
  container's children and the log of toasts shown. Its methods are `Render` (a loop that
  appends cards), `Load`, `Save`, `Add` and `Delete`.

The environment's choices are parameters of these methods:

- whether the storage read succeeded (`readOk`);
- whether the write succeeded (`writeOk`);
- whether the delete handler's card lookup accepted its selector (`lookupOk`);
- the string `Date.now().toString()` (`freshId`);
- the string `new Date().toISOString()` (`now`).

`savePrompts` catches its own failure (popup.js:55-61). So when a write fails inside add or
delete, the handler goes on as if it had succeeded:

- the stored value keeps its old contents;
- the fields are still cleared (add only);
- the new list is still rendered;
- a save-error toast is followed by the success toast.

The popup has a single toast element (popup.js:33). The success message is shown straight
after the save error and replaces it, so the user never sees the save error. The toast log
still records both calls.

`Add`'s and `Delete`'s contracts state this outcome. This is where the code departs from
the system's design description, which says a storage failure leaves the inputs untouched.
That holds in the code only when the read fails. A second departure: the design
description says delete removes at most one record. The code removes every record with
that id. `PromptList.UniqueDeleteRemovesAtMostOne` shows that the two agree whenever the
ids are unique. The code never checks that they are.

## Model

| member | source | states |
|---|---|---|
| JsTrim.TrimStartSpec | popup.js:66-67 | Stripping leading white space gives a suffix of the input. Everything dropped is white space, and the result does not start with white space. |
| JsTrim.TrimEndSpec | popup.js:66-67 | Stripping trailing white space gives a prefix of the input. Everything dropped is white space, and the result does not end with white space. |
| JsTrim.TrimIsMiddleSlice | popup.js:66-67 | `trim()` returns a contiguous slice `s[i..j]` of its input. Everything before `i` and after `j` is white space, and the slice has no white space at either end. |
| JsTrim.TrimEmptyIff | popup.js:66-72 | A trimmed field is empty, and add is rejected for it, exactly when the field holds only white space. |
| JsTrim.TrimIdempotent | popup.js:66-67 | Trimming a value that is already trimmed changes nothing. |
| PromptList.Without | popup.js:117 | The filtered list is no longer than the original, and none of its records has the deleted id. |
| PromptList.WithoutAppend | popup.js:117 | The filter distributes over concatenation, so the surviving records keep their original relative order. |
| PromptList.WithoutCounts | popup.js:117 | Each record with the id occurs 0 times in the result. Every other record occurs exactly as often as in the input. |
| PromptList.WithoutMembership | popup.js:117 | A record is in the result if and only if it was in the input and its id differs from the deleted one. |
| PromptList.WithoutUnchangedIff | popup.js:117 | Deleting an id leaves the list unchanged if and only if no record carries that id. |
| PromptList.WithoutIdempotent | popup.js:117 | Deleting the same id twice gives the same list as deleting it once. |
| PromptList.WithoutLength | popup.js:117 | The result is shorter by exactly the number of records that carry the id. |
| PromptList.UniqueDeleteRemovesAtMostOne | popup.js:117 | If ids are unique, deleting a present id removes exactly one record, and deleting an absent id leaves the list unchanged. |
| PromptList.WithoutPreserves | popup.js:117 | Deleting keeps a well-formed list well formed and keeps unique ids unique. |
| PromptList.PrependWellFormed | popup.js:78-85 | Putting a well-formed record at index 0 (`unshift`) keeps a well-formed list well formed. |
| PromptList.PrependUnique | popup.js:78-85 | Putting a record at index 0 of a list with unique ids keeps the ids unique if and only if the new id is not already used. |
| PromptList.DeleteUndoesAdd | popup.js:117 | Deleting the id of a record just put in front of a list that did not use that id gives back the original list. |
| PromptView.CardsOfSnoc | popup.js:160-163 | Appending one prompt's card extends the container by exactly that card. This is one step of the `forEach`/`appendChild` loop. |
| PromptView.CardsOfAt | popup.js:160-170 | There is one card per prompt. Card `i` carries prompt `i`'s id, title and text. |
| PromptView.RenderedEmpty | popup.js:144-156 | An empty list renders as the placeholder alone, which shows no prompt ids. |
| PromptView.RenderedNonEmpty | popup.js:159-170 | A non-empty list renders as exactly one card per prompt, in list order. Each card is tagged with its prompt's id and there is no placeholder. |
| PromptView.PlaceholderIff | popup.js:144-163 | The placeholder is shown if and only if the list is empty. |
| PromptView.ShownIdsRendered | popup.js:160-170 | The `data-prompt-id` tags read back off the rendered container are exactly the list's ids, in order. |
| Popup.NewPrompt | popup.js:78-83 | The new record has the fresh id, the timestamp, and the trimmed title and text. Both are non-empty and trimmed. |
| Popup.AddedListInvariants | popup.js:66-85 | The list that add writes keeps every record well formed. It keeps ids unique when the fresh id is unused. |
| Popup.PromptManager.Render | popup.js:140-164 | After the clear-then-loop, the container holds exactly `Rendered(prompts)`: the placeholder for an empty list, otherwise one card per prompt in order. |
| Popup.PromptManager.Load | popup.js:42-52 | A successful read renders the stored list, with an absent value shown as the empty list. A failed read changes only the toasts, adding the load error. |
| Popup.PromptManager.Save | popup.js:55-62 | A successful write replaces the stored value with the list, which a later read returns unchanged. A failed write keeps the old value, adds the save-error toast and returns normally. |
| Popup.PromptManager.Add | popup.js:65-100 | Rejected input changes nothing except the "fill in both" toast. A failed read changes nothing except the add-error toast. Otherwise the list written is `[new record] + old`, where an absent value counts as empty. The fields are cleared and that list is rendered. The success toast is shown whether or not the write succeeded; a failed write leaves the stored value as it was. |
| Popup.PromptManager.Delete | popup.js:103-126 | A failed read, or a card lookup that throws, changes nothing except the delete-error toast. Otherwise the list written is the old list without the id, where an absent value counts as empty. It is rendered and "Prompt deleted" is shown even when the write failed. Well-formedness and unique ids are kept. |

## Left out

- `chrome.storage.sync.get`/`set` are asynchronous calls to a remote service. They are
  modelled as a read and a write of the `stored` field, with success given as a boolean
  parameter.
- The race between overlapping handlers is not modelled. Each handler loads, mutates and
  saves the whole list, so two that overlap can lose an update. That is concurrency, which
  this sequential model cannot express. It is a known limitation of popup.js.
- Event listeners, the Enter and Ctrl+Enter shortcuts, and `focus()` (popup.js:11-29,
  popup.js:91) are UI wiring and are left out.
- The toast timer (popup.js:32-39) is left out. Toasts are kept as a log of which
  messages were shown.
- The 300 ms delete animation and its CSS class (popup.js:108-115) are left out. When the
  delete goes on, the re-render that follows discards the card.
- Popup.PromptManager.Delete: which ids make the card lookup throw is not modelled.
  popup.js:109 puts the id into a CSS selector without escaping. For an id containing `"`
  or a line break the selector is invalid, `querySelector` throws, and the handler takes
  the error path at popup.js:122-124. CSS selector parsing is the browser's, so the lookup's
  outcome is the parameter `lookupOk`. The digit strings the add handler creates as ids
  (popup.js:79) always give a valid selector.
- Clipboard copy (popup.js:129-137) is left out. It is a foreign browser API and does not
  touch the store.
- `escapeHtml` (popup.js:202-206) is left out. The escaping is done by the browser's
  text-node serialisation, so a card holds its title and text as given.
- The SVG/HTML markup of cards and placeholder is left out. A card is reduced to its id,
  title and text.
- popup.html is not part of this model. The constructor therefore starts with an empty
  container rather than the page's initial markup.
- How ids and timestamps are generated is left out. They are parameters, and ids are not
  assumed unique; the lemmas that need unique ids say so.
- A stored value of the wrong shape is not modelled: `stored` always holds a list or
  nothing.
- The "Greeting" example from the design description is stated for any non-empty trimmed
  title and text (`Popup.FirstAddScenario`), not for the literals.
