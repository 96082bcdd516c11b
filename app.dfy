/** The state of the recipe book screen and its event handlers. Each handler
    is one atomic transition of the component's state; the list changes it
    makes are the functions of module Recipes.
 */
module RecipeApp {
  import opened Recipes

  /** Which screen is shown: the recipe list ('lista') or the form ('formulario'). */
  datatype View = List | Form

  /** `if (editingId)` on a value that is either null or a recipe id: only a
      present, non-empty id selects the edit branch. */
  predicate Truthy(editingId: Option<string>): (b: bool)
    ensures b <==> editingId != None && editingId != Some("")
  {
    editingId.Some? && editingId.value != ""
  }

  class App {
    var view: View
    var recipes: seq<Recipe>
    var title: string
    var ingredients: string
    var preparation: string
    var editingId: Option<string>
    var modalVisible: bool
    var recipeToDelete: Option<Recipe>

    /** The confirmation dialog is shown exactly while a deletion is pending. */
    ghost predicate Valid()
      reads this
    {
      modalVisible <==> recipeToDelete.Some?
    }

    /** The initial state: the list screen, no recipes (the stored list, when
        there is one, is loaded later), empty form, nothing edited or pending. */
    constructor ()
      ensures Valid()
      ensures view == List && recipes == []
      ensures title == "" && ingredients == "" && preparation == ""
      ensures editingId == None && !modalVisible && recipeToDelete == None
    {
      view := List;
      recipes := [];
      title := "";
      ingredients := "";
      preparation := "";
      editingId := None;
      modalVisible := false;
      recipeToDelete := None;
    }

    /** Typing into the three inputs of the form. */
    method ChangeTitle(text: string)
      modifies this
      ensures title == text
      ensures view == old(view) && recipes == old(recipes)
      ensures ingredients == old(ingredients) && preparation == old(preparation)
      ensures editingId == old(editingId)
      ensures modalVisible == old(modalVisible) && recipeToDelete == old(recipeToDelete)
    {
      title := text;
    }

    method ChangeIngredients(text: string)
      modifies this
      ensures ingredients == text
      ensures view == old(view) && recipes == old(recipes)
      ensures title == old(title) && preparation == old(preparation)
      ensures editingId == old(editingId)
      ensures modalVisible == old(modalVisible) && recipeToDelete == old(recipeToDelete)
    {
      ingredients := text;
    }

    method ChangePreparation(text: string)
      modifies this
      ensures preparation == text
      ensures view == old(view) && recipes == old(recipes)
      ensures title == old(title) && ingredients == old(ingredients)
      ensures editingId == old(editingId)
      ensures modalVisible == old(modalVisible) && recipeToDelete == old(recipeToDelete)
    {
      preparation := text;
    }

    /** The form's save button. `now` is the text of the clock reading that
        becomes the id of a newly created record. An empty title changes
        nothing; otherwise a record is updated (edit in progress) or appended,
        the form is cleared and the list screen comes back. */
    method AddRecipe(now: string)
      requires Valid()
      modifies this
      ensures Valid()
      ensures old(title) == "" ==> unchanged(this)
      ensures old(title) != "" && Truthy(old(editingId)) ==>
        && recipes == UpdateById(old(recipes), old(editingId).value, old(title), old(ingredients), old(preparation))
        && editingId == None
      ensures old(title) != "" && !Truthy(old(editingId)) ==>
        && recipes == old(recipes) + [Recipe(now, old(title), old(ingredients), old(preparation))]
        && editingId == old(editingId)
      ensures old(title) != "" ==>
        && title == "" && ingredients == "" && preparation == ""
        && view == List
      ensures old(title) != "" && old(editingId) != Some("") ==> editingId == None
      ensures modalVisible == old(modalVisible) && recipeToDelete == old(recipeToDelete)
      ensures old(UniqueIds(recipes)) && (old(title) == "" || Truthy(old(editingId)) || now !in old(Ids(recipes)))
        ==> UniqueIds(recipes)
    {
      if title == "" {
        return;
      }
      if Truthy(editingId) {
        if UniqueIds(recipes) {
          UpdateKeepsUnique(recipes, editingId.value, title, ingredients, preparation);
        }
        recipes := UpdateById(recipes, editingId.value, title, ingredients, preparation);
        editingId := None;
      } else {
        var newRecipe := Recipe(now, title, ingredients, preparation);
        if UniqueIds(recipes) {
          AppendUniqueIff(recipes, newRecipe);
        }
        recipes := recipes + [newRecipe];
      }
      title := "";
      ingredients := "";
      preparation := "";
      view := List;
    }

    /** A record's edit button: the form is filled from the record and shown,
        and the save button will update that record. */
    method EditRecipe(recipe: Recipe)
      requires Valid()
      modifies this
      ensures Valid()
      ensures title == recipe.title && ingredients == recipe.ingredients && preparation == recipe.preparation
      ensures editingId == Some(recipe.id) && view == Form
      ensures recipes == old(recipes)
      ensures modalVisible == old(modalVisible) && recipeToDelete == old(recipeToDelete)
    {
      title := recipe.title;
      ingredients := recipe.ingredients;
      preparation := recipe.preparation;
      editingId := Some(recipe.id);
      view := Form;
    }

    /** A record's delete button: the record becomes the pending deletion,
        replacing any earlier one, and the confirmation dialog opens. */
    method DeleteRecipe(recipe: Recipe)
      requires Valid()
      modifies this
      ensures Valid()
      ensures recipeToDelete == Some(recipe) && modalVisible
      ensures recipes == old(recipes) && view == old(view) && editingId == old(editingId)
      ensures title == old(title) && ingredients == old(ingredients) && preparation == old(preparation)
    {
      recipeToDelete := Some(recipe);
      modalVisible := true;
    }

    /** The dialog's delete button: every record with the pending id is
        removed, the others keep their order, and the dialog closes. */
    method ConfirmDelete()
      requires Valid() && recipeToDelete.Some?
      modifies this
      ensures Valid()
      ensures recipes == RemoveById(old(recipes), old(recipeToDelete).value.id)
      ensures recipeToDelete == None && !modalVisible
      ensures view == old(view) && editingId == old(editingId)
      ensures title == old(title) && ingredients == old(ingredients) && preparation == old(preparation)
      ensures old(UniqueIds(recipes)) ==> UniqueIds(recipes)
    {
      if UniqueIds(recipes) {
        RemoveKeepsUnique(recipes, recipeToDelete.value.id);
      }
      recipes := RemoveById(recipes, recipeToDelete.value.id);
      recipeToDelete := None;
      modalVisible := false;
    }

    /** The dialog's cancel button (and the system back gesture): the pending
        deletion is dropped and the list is left alone. */
    method CancelDelete()
      requires Valid()
      modifies this
      ensures Valid()
      ensures recipeToDelete == None && !modalVisible
      ensures recipes == old(recipes) && view == old(view) && editingId == old(editingId)
      ensures title == old(title) && ingredients == old(ingredients) && preparation == old(preparation)
    {
      recipeToDelete := None;
      modalVisible := false;
    }

    /** The "add new recipe" button: only the screen changes; an edit in
        progress and the form's contents are kept. */
    method ShowForm()
      modifies this
      ensures view == Form
      ensures recipes == old(recipes) && editingId == old(editingId)
      ensures title == old(title) && ingredients == old(ingredients) && preparation == old(preparation)
      ensures modalVisible == old(modalVisible) && recipeToDelete == old(recipeToDelete)
    {
      view := Form;
    }

    /** The form's cancel button: only the screen changes; an edit in progress
        and the form's contents are kept. */
    method CancelForm()
      modifies this
      ensures view == List
      ensures recipes == old(recipes) && editingId == old(editingId)
      ensures title == old(title) && ingredients == old(ingredients) && preparation == old(preparation)
      ensures modalVisible == old(modalVisible) && recipeToDelete == old(recipeToDelete)
    {
      view := List;
    }
  }
}
