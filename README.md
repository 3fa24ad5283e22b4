# Quick prompts: a verified model of the prompt collection

The extension keeps a list of prompts in local storage. Each prompt is a record `{id, title, content, tags, enabled}`. Two list commands work on that list:

- the main command (`src/index.tsx`) lists only the enabled prompts;
- the manage command (`src/manage-prompt.tsx`) lists all, enabled or disabled prompts.

Both commands create, toggle and delete prompts, and the manage command also edits them. An import form (`src/components/ImportPromptsAction.tsx`) checks a decoded JSON payload and then merges it into the current list by id.

This project models those operations and proves what they do:

- `Prompts` holds the prompt record and the list operations both commands share: the status filter, append, toggle at a position, and delete at a position.
- `Strings` holds the `split(",")` that turns the tags field into a list, and `join`.
- `Merge` holds `mergePrompts`. The imperative method `MergePrompts` runs the `forEach` loop with its counters and is proved against the function `MergeAll`. The lemmas then describe the merged list without running the loop:
  - each prompt is overwritten in place at the first position with its id;
  - ids not already present are added at the end, in the order they were imported;
  - when an id appears more than once, the last imported prompt wins;
  - the counters add up to the number imported;
  - ids stay unique.
- `ImportPrompts` holds the shape check `isValidPrompt`, which works on a JSON value type (`Json`). It also holds the checks on the form inputs and the all-or-nothing gate of `handleImport`. The gate's I/O is stripped out: reading the file, fetching the URL and decoding the JSON become one `load` parameter, and the URL syntax check becomes a `parses` parameter. The same module models the JSON value an export writes, so the model can show that re-importing an export reproduces the collection.
- `ManageCommand` and `IndexCommand` model each command's handlers. Each handler is a function from the stored list (an `Option`, because storage can be empty) and the view state to the new list and view state.

The model follows the code on these points, which a reader might expect to be otherwise:

- The file import reads the first picked path. The code does not reject a selection of several files.
- `isValidPrompt` only checks that `tags` is an array. It does not check the items' types, so `Prompt.tags` holds JSON values.
- Create appends the new prompt at the end of the list, not at the front.
- A title may be empty. No handler here checks it.

## Model

| member | source | states |
|---|---|---|
| `Strings.Split` | src/manage-prompt.tsx:28 | `split(",")` always gives at least one piece, and no piece contains a comma |
| `Strings.JoinSplit` | src/manage-prompt.tsx:28 | joining the pieces of a split with `","` gives back the typed tags string |
| `Strings.SplitJoin` | src/manage-prompt.tsx:28 | splitting a join of comma-free pieces gives back the pieces |
| `Prompts.WithStatus` | src/manage-prompt.tsx:51-54 | every prompt the filter returns has the given status, and the result is never longer than the input |
| `Prompts.WithStatusMembers` | src/manage-prompt.tsx:51-54 | the filter passes a prompt exactly when the prompt is in the list and has the given status |
| `Prompts.WithStatusCounts` | src/manage-prompt.tsx:51-54 | the filter keeps every copy of each prompt with the given status and no copy of any other prompt |
| `Prompts.WithStatusKeepsOrder` | src/manage-prompt.tsx:51-54 | the filter keeps the stored order (the result is a subsequence) |
| `Prompts.StatusPartition` | src/manage-prompt.tsx:49-57 | the enabled and the disabled prompts together make up the whole list, as a multiset and by count |
| `Prompts.StoreIndex` | src/manage-prompt.tsx:86 | gives the position in the stored list of the prompt shown at position k of a status view: it holds that prompt, has that status, and exactly k prompts of that status come before it |
| `Prompts.NewPromptTags` | src/index.tsx:21-27 | a created prompt has at least one tag, and its tags are comma-free string pieces that join back to the typed string, which makes them the pieces of the split at commas |
| `Prompts.Append` | src/manage-prompt.tsx:22-31 | create adds exactly one prompt at the end and leaves every earlier entry unchanged; an absent list counts as empty |
| `Prompts.AppendKeepsUnique` | src/manage-prompt.tsx:22-31 | appending a prompt whose id is fresh keeps the ids unique |
| `Prompts.ToggleAt` | src/manage-prompt.tsx:120-125 | flips `enabled` at position i only; the length and every other position are unchanged; an out-of-range i changes nothing |
| `Prompts.ToggleTwice` | src/manage-prompt.tsx:120-125 | toggling the same position twice restores the list |
| `Prompts.ToggleKeepsFields` | src/index.tsx:67-72 | a toggle keeps every id, title, content and tags, so id uniqueness holds after it exactly when it held before |
| `Prompts.ToggleMovesOne` | src/index.tsx:67-72 | toggling a stored position changes the number of enabled prompts by exactly one |
| `Prompts.RemoveAt` | src/manage-prompt.tsx:130 | delete drops exactly element i when `0 <= i < length`: the rest keep their positions before i and shift down by one after it. Otherwise it changes nothing |
| `Prompts.RemoveKeepsOrder` | src/index.tsx:77 | after a delete the other prompts keep their relative order |
| `Prompts.RemoveKeepsUnique` | src/manage-prompt.tsx:130 | delete keeps ids unique, and the deleted prompt's id is then gone from the list |
| `Prompts.RemoveFromStatus` | src/index.tsx:35-38 | deleting a stored prompt of the given status removes exactly that one copy from the filtered view |
| `Merge.FindIndex` | src/components/ImportPromptsAction.tsx:24 | `findIndex` gives the first position holding the id, or -1 exactly when no prompt has that id |
| `Merge.MergePrompts` | src/components/ImportPromptsAction.tsx:13-38 | the loop computes `MergeAll`; an empty import returns the current list with both counters 0; `added + updated` equals the number imported; the result's length is the current length plus `added`; unique ids stay unique |
| `Merge.MergeShape` | src/components/ImportPromptsAction.tsx:21-35 | the result's ids are the current ids followed by the new ids in import order. The first position of a matched id holds the last imported prompt with that id, and every other current position is unchanged. Each appended position holds the last imported prompt with its id. `added` is the number of new ids |
| `Merge.MergeKeepsUnique` | src/components/ImportPromptsAction.tsx:21-35 | when the current ids are unique, so are the merged ids, even with duplicates inside the import |
| `Merge.MergeOneExisting` | src/components/ImportPromptsAction.tsx:24-29 | importing one prompt whose id is stored at k replaces entry k in place, with `added 0` and `updated 1` |
| `Merge.MergeOneNew` | src/components/ImportPromptsAction.tsx:30-34 | importing one prompt with an unknown id appends it, with `added 1` and `updated 0` |
| `Merge.MergeIntoItself` | src/components/ImportPromptsAction.tsx:21-35 | merging a list with unique ids into itself returns it unchanged, with `added 0` and `updated` equal to its length |
| `ImportPrompts.ValidPromptShape` | src/components/ImportPromptsAction.tsx:188-197 | `isValidPrompt` holds exactly when the value is an object with string `id`, `title` and `content`, a boolean `enabled`, and `tags` absent or an array |
| `ImportPrompts.Export` | src/components/ExportPromptsAction.tsx:20 | the export is an array with one item per stored prompt |
| `ImportPrompts.EncodeDecode` | src/components/ExportPromptsAction.tsx:20 | every exported prompt passes `isValidPrompt` and decodes to the same prompt |
| `ImportPrompts.ExportDecodes` | src/components/ImportPromptsAction.tsx:104-106 | an exported collection passes the array and element checks and decodes to the same collection |
| `ImportPrompts.CheckSelection` | src/components/ImportPromptsAction.tsx:46-79 | file mode with no picked path fails with `NoFileSelected`; URL mode with an empty URL fails with `MissingUrl`; a URL that does not parse (`validateUrl`) fails with `InvalidUrl`; otherwise the source is the first path or the URL |
| `ImportPrompts.HandleImport` | src/components/ImportPromptsAction.tsx:56-112 | the merge runs exactly when all four hold: the selection passes, loading succeeds, the payload is an array, and every element is valid. A failed selection returns its own error, a failed load returns `LoadFailed` with the load's message, and an invalid payload returns `InvalidFormat`. On success the report is the merge of the decoded payload into the stored list (or `[]`), with its stats and the payload's length as the number imported. The counters add up to that number, and unique ids stay unique |
| `ImportPrompts.SelectionBeforeLoad` | src/components/ImportPromptsAction.tsx:60-79 | a rejected selection gives the same error whatever loading would return, so nothing is loaded |
| `ImportPrompts.ReimportExport` | src/components/ImportPromptsAction.tsx:104-112 | importing the export of a list with unique ids gives back that list, with `added 0` and `updated` equal to its length |
| `ManageCommand.FilteredPrompts` | src/manage-prompt.tsx:49-57 | the view is exactly the stored prompts the status filter passes (All passes every prompt), in stored order; an absent list gives an empty view. Each passing prompt is kept as often as it is stored, and under All the view is the stored list itself |
| `ManageCommand.ViewsPartition` | src/manage-prompt.tsx:49-57 | the Enabled view and the Disabled view together make up the All view |
| `ManageCommand.HandleCreate` | src/manage-prompt.tsx:21-37 | the view resets to filter All with an empty search, and the new prompt is listed last, after every earlier prompt |
| `ManageCommand.CreateKeepsUnique` | src/manage-prompt.tsx:22-31 | create with a fresh id keeps the stored ids unique |
| `ManageCommand.Edit` | src/manage-prompt.tsx:41-45 | edit keeps the length and every id; each entry with the edited id becomes the edited prompt; every other entry is unchanged |
| `ManageCommand.HandleEdit` | src/manage-prompt.tsx:39-47 | stores the list with every prompt of the edited id replaced by the edited prompt; an absent list becomes a stored empty list; the length and the view state are kept; id uniqueness is unaffected |
| `ManageCommand.EditIdempotent` | src/manage-prompt.tsx:39-47 | editing twice with the same prompt is the same as editing once |
| `ManageCommand.EditMovesToItsStatus` | src/manage-prompt.tsx:39-57 | after an edit of a stored id, the edited prompt is in the view of its new status and in no view of the other status |
| `ManageCommand.OnToggle` | src/manage-prompt.tsx:116-127 | stores the whole stored list with position `index` toggled (`ToggleAt`), keeping the length, the ids and the view state |
| `ManageCommand.OnDelete` | src/manage-prompt.tsx:130 | stores the whole stored list with position `index` removed (`RemoveAt`): the length drops by one exactly when the index is in range, the rest keep their order, and the view state is kept |
| `ManageCommand.ActionsHitShownUnderAll` | src/manage-prompt.tsx:86 | under the All filter the view position is the stored position, so the actions reach the shown prompt |
| `ManageCommand.ToggleFromEnabledViewHitsAnother` | src/manage-prompt.tsx:118-126 | in the Enabled view of [disabled a, enabled b], toggling shown item 0 enables a, and b stays enabled |
| `ManageCommand.ShownStoreIndex` | src/manage-prompt.tsx:86 | gives the stored position of the prompt shown at position k of the current view: it holds that prompt, passes the filter, and exactly k stored prompts before it pass the filter |
| `ManageCommand.ToggleShown` | src/manage-prompt.tsx:116-127 | the intended toggle flips the prompt that is shown at k, and under a status filter that prompt leaves the view |
| `ManageCommand.DeleteShown` | src/manage-prompt.tsx:130 | the intended delete is `OnDelete` at the stored position of the prompt shown at k: it removes exactly that prompt and keeps the order of the rest |
| `IndexCommand.Shown` | src/index.tsx:35-38 | the list is exactly the enabled stored prompts, in stored order, each kept as often as it is stored; an absent list gives `[]` |
| `IndexCommand.HandleCreate` | src/index.tsx:18-33 | the search is cleared; the new prompt is appended after the unchanged earlier entries, and it is listed exactly when it was created enabled |
| `IndexCommand.CreateKeepsUnique` | src/index.tsx:18-28 | create with a fresh id keeps the stored ids unique |
| `IndexCommand.OnToggle` | src/index.tsx:63-75 | stores the whole stored list with position `index` toggled (`ToggleAt`): `enabled` changes only there, and every id, title, content and tags is kept |
| `IndexCommand.OnDelete` | src/index.tsx:77 | stores the whole stored list with position `index` removed (`RemoveAt`): the length drops by one exactly when the index is in range, and the rest keep their order |
| `IndexCommand.DeleteFromListHitsAnother` | src/index.tsx:77 | for [disabled a, enabled b], deleting listed item 0 deletes the hidden a, and b stays listed |
| `IndexCommand.ToggleShown` | src/index.tsx:63-75 | the intended toggle disables the listed prompt at k, which leaves the list, so the list shrinks by one |
| `IndexCommand.DeleteShown` | src/index.tsx:77 | the intended delete is `OnDelete` at the stored position of the listed prompt at k: it removes exactly that prompt, from both the stored list and the list shown, and keeps the order of the rest |

## Findings

| source | as written | input that shows it | evidently intended | confidence | as-written member | corrected member |
|---|---|---|---|---|---|---|
| src/manage-prompt.tsx:118-130 | toggle and delete apply the item's position in the filtered view to the whole stored list | filter Enabled, stored [a disabled, b enabled]: toggling the shown b (view position 0) enables a and leaves b enabled | act on the prompt that is shown | high; not executed | `ManageCommand.ToggleFromEnabledViewHitsAnother` | `ManageCommand.ToggleShown` |
| src/index.tsx:63-77 | toggle and delete apply the item's position among the enabled prompts to the whole stored list | stored [a disabled, b enabled]: deleting the listed b (list position 0) deletes the hidden a and b stays listed | act on the prompt that is listed | high; not executed | `IndexCommand.DeleteFromListHitsAnother` | `IndexCommand.DeleteShown` |

The handlers `OnToggle` and `OnDelete` of both commands keep the behaviour as written, because that is what the program stores. `ToggleShown` and `DeleteShown` map the view position to the stored position first (`StoreIndex`, `ShownStoreIndex`), and their intended effect is proved.

## Left out

- Reading the file, fetching the URL, the `response.ok` status check and JSON decoding are all I/O. Together they are the `load` parameter of `HandleImport`, and any failure of theirs is `LoadFailed`.
- `validateUrl` relies on the WHATWG `URL` constructor, which is not part of this model. It is the `parses` parameter.
- `nanoid` is the `freshId` parameter. The uniqueness lemmas take its freshness as a precondition.
- Local storage is the current `Option<seq<Prompt>>` value. Persistence, loading flags and the asynchronous update are not modelled.
- The model does not call `onImport`: `HandleImport` returns the list that is handed to it. The caller that stores that list is not part of this model.
- Extra members of an imported object (other than the five prompt fields) are dropped by `Decode`. The program keeps them in the stored objects, and edit and toggle carry them along through `...p`.
- JSON numbers are integers. No prompt field is a number, and the import never reads one.
- Export writes the JSON text with two-space indentation to the clipboard and to a dated file on the desktop. Those are I/O. Only the JSON value it writes (`Export`) is modelled.
- Free-text search is done by the host list. The model keeps `searchText` only as view state.
- The user-interface components, toasts, HUD messages and `EmptyView` only present data, so they are not modelled.
- The edit and create form components are not part of this model. The edited prompt and the create form values are parameters.
