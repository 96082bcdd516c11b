# Recipe book: a Dafny model of the `App` component

The app is a single-screen recipe book written in React Native. One
component, `App`, holds all of its state: the list of recipes, the three
form fields (title, ingredients, preparation), the id of the recipe being
edited, which screen is shown (the list, `'lista'`, or the form,
`'formulario'`), and the delete-confirmation dialog (visible or not,
and the recipe it would delete). Its event handlers are the transitions of
a small state machine over that state.

The model has three modules:

- `Recipes` (`recipes.dfy`): the `Recipe` record and the three list
  transformations the handlers apply, as functions on `seq<Recipe>`:
  appending a new record (`rs + [r]`), replacing the fields of the edited
  record while keeping its id and position (`UpdateById`), and dropping the
  records with the id confirmed for deletion, in order (`RemoveById`). Lemmas
  relate them to the set of ids and to id uniqueness.
- `RecipeApp` (`app.dfy`): class `App`, whose fields are the component's
  state. It has one method per handler. Each handler is one atomic
  transition. `Valid()` is the invariant that the dialog is visible exactly
  while a deletion is pending. Every method states the whole new state.
- `Scenarios` (`scenarios.dfy`): walks through the screen from a freshly
  mounted component. These are proved from the handlers' contracts alone.

Some behaviours of the code are easy to miss; the model follows the code:

- Only an empty title is rejected. A title of blanks is saved.
- Saving an edit whose id matches no record changes nothing and reports
  nothing. There is no "not found" result.
- The form's cancel button and the "add new recipe" button only switch the
  screen. They leave the edit in progress and the form's contents alone.
  So a save after a cancelled edit still updates that record.
- Confirming a deletion with no pending target is not a no-op in the code.
  It reads `recipeToDelete.id` on `null`. The dialog that calls it is only
  visible while a target is pending, so `ConfirmDelete` requires one.
- The create branch is chosen by JavaScript truthiness of `editingId`. A
  record whose id is the empty string therefore cannot be edited: saving
  takes the create branch and leaves `editingId` as it was (`Truthy`).
  Clock-based ids are never empty, so after any save that is not this case,
  `editingId` is null.
- Ids come from the clock (`Date.now().toString()`). Nothing in the code
  makes them unique. The new id is the parameter `now` of `AddRecipe`.
  A save that creates a record preserves uniqueness only under the explicit
  hypothesis that `now` is not already in use (`AddRecipe`,
  `AppendUniqueIff`); a rejected save or an edit preserves it unconditionally. `Scenarios.TwoCreates`
  shows that two saves at the same reading give two records with one id,
  and that one deletion then removes both.

## Model

| member | source | states |
|---|---|---|
| `Recipes.Edited` | App.js:79 | the edited record keeps its id and takes the form's title, ingredients and preparation |
| `Recipes.UpdateById` | App.js:76-82 | same length; every record keeps its id and position; records with the edited id carry exactly the form's fields; all other records are identical |
| `Recipes.RemoveById` | App.js:119 | a record is kept exactly when it was in the list and its id differs from the deleted id; the list does not grow |
| `Recipes.AppendKeepsPrefix` | App.js:92 | appending grows the list by one, keeps every earlier record in place, puts the new record last, and adds exactly its id to the set of ids |
| `Recipes.AppendUniqueIff` | App.js:86-92 | on a list with unique ids, the appended list has unique ids if and only if the new id is not already present |
| `Recipes.UpdateAbsentIsIdentity` | App.js:76-82 | saving an edit for an id no record carries returns the list unchanged |
| `Recipes.UpdateKeepsIds` | App.js:76-82 | saving an edit keeps the set of ids |
| `Recipes.UpdateKeepsUnique` | App.js:76-82 | saving an edit keeps ids unique |
| `Recipes.UpdateUniqueChangesOne` | App.js:76-82 | on a list with unique ids, saving an edit for the id at position k replaces that one record and no other |
| `Recipes.RemoveConcat` | App.js:119 | removal distributes over concatenation, so kept records keep their relative order |
| `Recipes.RemoveCounts` | App.js:119 | each record with another id keeps its number of occurrences, and records with the removed id all disappear |
| `Recipes.RemoveAbsentIsIdentity` | App.js:119 | removing an id no record carries returns the list unchanged |
| `Recipes.RemoveIds` | App.js:119 | the ids after removal are the old ids minus the removed one |
| `Recipes.RemoveKeepsUnique` | App.js:119 | removal keeps ids unique |
| `Recipes.RemoveUniquePresent` | App.js:119 | on a list with unique ids, removing a present id shortens the list by exactly one |
| `RecipeApp.Truthy` | App.js:74 | only a present, non-empty `editingId` selects the edit branch; `null` and `""` both select the create branch |
| `RecipeApp.App.constructor` | App.js:19-40 | initial state: list screen, no recipes, empty form, no edit, dialog hidden with no target |
| `RecipeApp.App.ChangeTitle` | App.js:207-212 | typing sets the title and nothing else |
| `RecipeApp.App.ChangeIngredients` | App.js:214-220 | typing sets the ingredients and nothing else |
| `RecipeApp.App.ChangePreparation` | App.js:222-228 | typing sets the preparation and nothing else |
| `RecipeApp.App.AddRecipe` | App.js:71-100 | empty title: no field changes. Otherwise the edit branch does `UpdateById` and clears `editingId`; the create branch appends `{now, title, ingredients, preparation}` last. Either way the form is cleared and the list screen shown. The dialog state is kept, and so is id uniqueness, except when a created record reuses an id already present |
| `RecipeApp.App.EditRecipe` | App.js:103-109 | the form takes the record's three fields, `editingId` its id, the form screen is shown; the list and dialog are unchanged |
| `RecipeApp.App.DeleteRecipe` | App.js:112-115 | the record becomes the pending target, replacing any earlier one, and the dialog opens; nothing else changes |
| `RecipeApp.App.ConfirmDelete` | App.js:118-122 | the list becomes `RemoveById` of the pending id; the target is cleared and the dialog hidden; id uniqueness is kept |
| `RecipeApp.App.CancelDelete` | App.js:125-128 | the target is cleared and the dialog hidden; the list and the form are unchanged |
| `RecipeApp.App.ShowForm` | App.js:161-163 | only the screen changes, to the form; the edit in progress and the form's fields persist |
| `RecipeApp.App.CancelForm` | App.js:231-233 | only the screen changes, to the list; the edit in progress and the form's fields persist |
| `Scenarios.CreateOne` | App.js:84-99 | typing a recipe and saving lists exactly that recipe, with the clock reading as id, on the list screen |
| `Scenarios.EmptyTitleIgnored` | App.js:72 | saving with an empty title adds nothing, keeps the form open and keeps the typed ingredients |
| `Scenarios.CreateThenEdit` | App.js:74-83 | create then edit then save: one record, the same id, the new ingredients, no edit in progress |
| `Scenarios.CancelledEditStillUpdates` | App.js:233 | after an edit is left with cancel and the form reopened with "add new", saving updates the record instead of adding one |
| `Scenarios.CancelThenConfirmDelete` | App.js:112-128 | cancelling the dialog keeps the record; confirming removes it and hides the dialog |
| `Scenarios.TwoCreates` | App.js:87-92 | two saves are listed in call order; their ids are unique exactly when the clock readings differ; with equal readings one deletion removes both |

## Left out

- Loading the stored list at start-up (App.js:44-56) and saving it after every change (App.js:59-68) are left out. These are asynchronous device storage calls into a library that is not part of this model. In the code a missing or unreadable stored list leaves `recipes` at its initial `[]`. Every change to `recipes` triggers a full save of the list. Failures are only logged.
- JSON encoding and decoding of the stored list (App.js:49, 62) is left out. It is a foreign library.
- The clock (App.js:87) is not modelled. Its reading is the parameter `now` of `AddRecipe`.
- Rendering, the dialog's presentation and the styles (App.js:131-276) are left out. Only the handlers they wire up are modelled. The dialog's back-gesture hook (App.js:138) is one more path into `CancelDelete`.
- React's batching and deferred state updates are not modelled. Each handler is one atomic transition.
- Records stored by an older version without a `preparation` field are not modelled. In JavaScript their `preparation` reads as `undefined`. Here every record has all four text fields.
