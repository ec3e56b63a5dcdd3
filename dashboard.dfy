/** The dashboard component of `components/dashboard.tsx`: the offered
  * recipes, favourites, preference lists, profile progress and the
  * completion handler that feeds the activity ledger. */
module Dashboard {
  import opened Wrappers
  import opened Text
  import opened Seqs
  import opened Recipes
  import opened Calendar
  import Cooking

  datatype Preferences = Preferences(
    cuisines: seq<string>,
    restrictions: seq<string>,
    missingIngredients: seq<string>,
    cookingExperience: seq<string>)

  datatype UserProfile = UserProfile(
    username: string,
    level: int,
    experience: nat,
    recipesCooked: nat,
    skillBadges: seq<string>,
    preferences: Preferences)

  /** Experience awarded for each completed session. */
  const ExperiencePerRecipe: nat := 50

  /** Experience needed per level, as the header displays it. */
  const ExperiencePerLevel: nat := 1000

  // ---------------------------------------------------------------- profile

  /** The profile after one completed session: 50 more experience, one more
    * recipe cooked, and nothing else touched (level and badges included). */
  function Credit(p: UserProfile): (q: UserProfile)
    ensures q.experience == p.experience + ExperiencePerRecipe
    ensures q.recipesCooked == p.recipesCooked + 1
    ensures q.(experience := p.experience, recipesCooked := p.recipesCooked) == p
  {
    p.(experience := p.experience + ExperiencePerRecipe, recipesCooked := p.recipesCooked + 1)
  }

  /** `n` completed sessions in a row. */
  function CreditN(p: UserProfile, n: nat): UserProfile {
    if n == 0 then p else Credit(CreditN(p, n - 1))
  }

  /** `n` sessions earn exactly `50 n` experience and count `n` recipes,
    * whatever the recipes were. */
  lemma {:induction false} CreditNAdds(p: UserProfile, n: nat)
    ensures CreditN(p, n) == p.(experience := p.experience + ExperiencePerRecipe * n,
                                recipesCooked := p.recipesCooked + n)
  {
    if n > 0 {
      CreditNAdds(p, n - 1);
    }
  }

  /** The progress bar towards the next level: `experience % 1000`. */
  function LevelProgress(p: UserProfile): (r: int)
    ensures 0 <= r < ExperiencePerLevel
    ensures (p.experience - r) % ExperiencePerLevel == 0
  {
    p.experience % ExperiencePerLevel
  }

  /** Twenty sessions fill exactly one level's bar, so the bar shows the
    * same value again. */
  lemma LevelProgressCycles(p: UserProfile)
    ensures LevelProgress(CreditN(p, 20)) == LevelProgress(p)
  {
    CreditNAdds(p, 20);
  }

  // ---------------------------------------------------------------- preferences

  /** An add handler's new list: the trimmed input appended, unless it
    * trims to nothing. */
  function AddEntry(list: seq<string>, input: string): (r: seq<string>)
    ensures Trim(input) == [] <==> r == list
    ensures Trim(input) != [] ==> |r| == |list| + 1 && r[..|list|] == list && r[|list|] == Trim(input)
    ensures forall i :: |list| <= i < |r| ==> r[i] != [] && Trim(r[i]) == r[i]
  {
    TrimIdempotent(input);
    if Trim(input) != [] then list + [Trim(input)] else list
  }

  /** A remove handler's new list: every entry equal to `item` dropped, the
    * rest kept in order. */
  function RemoveEntry(list: seq<string>, item: string): (r: seq<string>)
    ensures forall x :: x in r <==> x in list && x != item
  {
    Filter(list, (x: string) => x != item)
  }

  /** Adding an entry and then removing it leaves the list as removing it
    * alone would. */
  lemma AddThenRemove(list: seq<string>, input: string)
    ensures RemoveEntry(AddEntry(list, input), Trim(input)) == RemoveEntry(list, Trim(input))
  {
    var t := Trim(input);
    if t != [] {
      FilterConcat(list, [t], (x: string) => x != t);
    }
  }

  /** Removing the same entry twice is removing it once. */
  lemma RemoveTwice(list: seq<string>, item: string)
    ensures RemoveEntry(RemoveEntry(list, item), item) == RemoveEntry(list, item)
  {
    FilterIdempotent(list, (x: string) => x != item);
  }

  /** Typing the input already trimmed makes no difference. */
  lemma AddTrimmedInput(list: seq<string>, input: string)
    ensures AddEntry(list, Trim(input)) == AddEntry(list, input)
  {
    TrimIdempotent(input);
  }

  // ---------------------------------------------------------------- component

  /** The component's state variables (the active tab is left out). */
  class Dashboard {
    var userProfile: UserProfile
    var recommendedRecipes: seq<Recipe>
    var favoriteRecipes: seq<Recipe>
    var cookingHistory: Ledger
    var newIngredient: string
    var newRestriction: string
    var newCookingExperience: string
    var showCookingInterface: bool
    var selectedRecipe: Option<Recipe>

    /** Favourites hold each id once and the ledger has no negative count. */
    ghost predicate Valid()
      reads this
    {
      UniqueIds(favoriteRecipes) && NonNegative(cookingHistory)
    }

    /** Mounting with the initial profile, offered recipes and history. */
    constructor (profile: UserProfile, recipes: seq<Recipe>, history: Ledger)
      requires NonNegative(history)
      ensures Valid()
      ensures userProfile == profile && recommendedRecipes == recipes && cookingHistory == history
      ensures favoriteRecipes == [] && selectedRecipe == None && !showCookingInterface
      ensures newIngredient == [] && newRestriction == [] && newCookingExperience == []
    {
      userProfile := profile;
      recommendedRecipes := recipes;
      favoriteRecipes := [];
      cookingHistory := history;
      newIngredient, newRestriction, newCookingExperience := [], [], [];
      showCookingInterface := false;
      selectedRecipe := None;
    }

    /** `handleAcceptRecipe`: open the cooking view on the first offered recipe
      * with that id; an id no longer offered changes nothing. The offered
      * list itself is kept. */
    method AcceptRecipe(recipeId: string)
      modifies this`selectedRecipe, this`showCookingInterface
      ensures var found := FindById(recommendedRecipes, recipeId);
        && (found.None? ==> selectedRecipe == old(selectedRecipe)
                            && showCookingInterface == old(showCookingInterface))
        && (found.Some? ==> selectedRecipe == found && showCookingInterface)
    {
      var recipe := FindById(recommendedRecipes, recipeId);
      if recipe.Some? {
        selectedRecipe := recipe;
        showCookingInterface := true;
      }
    }

    /** `handleRejectRecipe`: drop every offered recipe with that id. */
    method RejectRecipe(recipeId: string)
      modifies this`recommendedRecipes
      ensures recommendedRecipes == WithoutId(old(recommendedRecipes), recipeId)
    {
      recommendedRecipes := WithoutId(recommendedRecipes, recipeId);
    }

    /** `toggleFavorite`. */
    method ToggleFavorite(recipe: Recipe)
      requires Valid()
      modifies this`favoriteRecipes
      ensures Valid()
      ensures favoriteRecipes == Toggle(old(favoriteRecipes), recipe)
    {
      ToggleKeepsUnique(favoriteRecipes, recipe);
      favoriteRecipes := Toggle(favoriteRecipes, recipe);
    }

    /** `isFavorite`: some favourite has that id. */
    function IsFavorite(recipeId: string): (b: bool)
      reads this
      ensures b <==> exists k :: 0 <= k < |favoriteRecipes| && favoriteRecipes[k].id == recipeId
    {
      HasId(favoriteRecipes, recipeId)
    }

    method AddMissingIngredient()
      modifies this`userProfile, this`newIngredient
      ensures var p := old(userProfile.preferences);
        && userProfile == old(userProfile).(preferences :=
             p.(missingIngredients := AddEntry(p.missingIngredients, old(newIngredient))))
        && newIngredient == if Trim(old(newIngredient)) != [] then [] else old(newIngredient)
    {
      if Trim(newIngredient) != [] {
        var p := userProfile.preferences;
        userProfile := userProfile.(preferences :=
          p.(missingIngredients := p.missingIngredients + [Trim(newIngredient)]));
        newIngredient := [];
      }
    }

    method AddDietaryRestriction()
      modifies this`userProfile, this`newRestriction
      ensures var p := old(userProfile.preferences);
        && userProfile == old(userProfile).(preferences :=
             p.(restrictions := AddEntry(p.restrictions, old(newRestriction))))
        && newRestriction == if Trim(old(newRestriction)) != [] then [] else old(newRestriction)
    {
      if Trim(newRestriction) != [] {
        var p := userProfile.preferences;
        userProfile := userProfile.(preferences :=
          p.(restrictions := p.restrictions + [Trim(newRestriction)]));
        newRestriction := [];
      }
    }

    method AddCookingExperience()
      modifies this`userProfile, this`newCookingExperience
      ensures var p := old(userProfile.preferences);
        && userProfile == old(userProfile).(preferences :=
             p.(cookingExperience := AddEntry(p.cookingExperience, old(newCookingExperience))))
        && newCookingExperience ==
             if Trim(old(newCookingExperience)) != [] then [] else old(newCookingExperience)
    {
      if Trim(newCookingExperience) != [] {
        var p := userProfile.preferences;
        userProfile := userProfile.(preferences :=
          p.(cookingExperience := p.cookingExperience + [Trim(newCookingExperience)]));
        newCookingExperience := [];
      }
    }

    method RemoveMissingIngredient(ingredient: string)
      modifies this`userProfile
      ensures var p := old(userProfile.preferences);
        userProfile == old(userProfile).(preferences :=
          p.(missingIngredients := RemoveEntry(p.missingIngredients, ingredient)))
    {
      var p := userProfile.preferences;
      userProfile := userProfile.(preferences :=
        p.(missingIngredients := RemoveEntry(p.missingIngredients, ingredient)));
    }

    method RemoveDietaryRestriction(restriction: string)
      modifies this`userProfile
      ensures var p := old(userProfile.preferences);
        userProfile == old(userProfile).(preferences :=
          p.(restrictions := RemoveEntry(p.restrictions, restriction)))
    {
      var p := userProfile.preferences;
      userProfile := userProfile.(preferences :=
        p.(restrictions := RemoveEntry(p.restrictions, restriction)));
    }

    method RemoveCookingExperience(experience: string)
      modifies this`userProfile
      ensures var p := old(userProfile.preferences);
        userProfile == old(userProfile).(preferences :=
          p.(cookingExperience := RemoveEntry(p.cookingExperience, experience)))
    {
      var p := userProfile.preferences;
      userProfile := userProfile.(preferences :=
        p.(cookingExperience := RemoveEntry(p.cookingExperience, experience)));
    }

    /** `handleBackToDashboard`: close the cooking view without recording. */
    method BackToDashboard()
      modifies this`showCookingInterface, this`selectedRecipe
      ensures !showCookingInterface && selectedRecipe == None
    {
      showCookingInterface := false;
      selectedRecipe := None;
    }

    /** `handleCookingComplete`: count one more recipe on `today`, credit the
      * profile and close the cooking view. The photo is only logged. */
    method CookingComplete(today: Day, photo: Option<Cooking.Photo>)
      requires Valid()
      modifies this`cookingHistory, this`userProfile, this`showCookingInterface, this`selectedRecipe
      ensures Valid()
      ensures cookingHistory == Record(old(cookingHistory), today)
      ensures userProfile == Credit(old(userProfile))
      ensures !showCookingInterface && selectedRecipe == None
    {
      cookingHistory := cookingHistory[today := CountOn(cookingHistory, today) + 1];
      userProfile := userProfile.(experience := userProfile.experience + ExperiencePerRecipe,
                                  recipesCooked := userProfile.recipesCooked + 1);
      showCookingInterface := false;
      selectedRecipe := None;
    }
  }
}
