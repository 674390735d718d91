/** The category strip (src/components/Categories.js): one button per
    category, of which the one at `activeCategory` is highlighted. */
module Categories {
  import opened MealDb

  const ActiveClass: string := "bg-amber-400"
  const InactiveClass: string := "bg-black/10"
  const WrapperPrefix: string := "rounded-full p-[6px] "

  /** What one button shows, its wrapper's class string, and the index its
      press hands to `handleChangeCategory`. */
  datatype Button = Button(caption: string, thumb: string, active: bool, wrapperClass: string, pressArgument: int)

  function CategoryButton(cat: Category, index: nat, activeCategory: int): (b: Button)
    ensures b.active <==> index == activeCategory
    ensures b.wrapperClass == WrapperPrefix + (if b.active then ActiveClass else InactiveClass)
    ensures b.caption == cat.strCategory && b.thumb == cat.strCategoryThumb
    ensures b.pressArgument == index
  {
    var isActive := index == activeCategory;
    var activeButtonClass := if isActive then ActiveClass else InactiveClass;
    Button(cat.strCategory, cat.strCategoryThumb, isActive, WrapperPrefix + activeButtonClass, index)
  }

  /** `categories.map(...)`: one button per category, in list order. */
  function Buttons(categories: seq<Category>, activeCategory: int): (buttons: seq<Button>)
    ensures |buttons| == |categories|
    ensures forall i :: 0 <= i < |buttons| ==> buttons[i] == CategoryButton(categories[i], i, activeCategory)
  {
    seq(|categories|, i requires 0 <= i < |categories| => CategoryButton(categories[i], i, activeCategory))
  }

  /** How many buttons are highlighted. */
  function ActiveCount(buttons: seq<Button>): nat
  {
    if buttons == [] then 0
    else ActiveCount(buttons[..|buttons| - 1]) + (if buttons[|buttons| - 1].active then 1 else 0)
  }

  /** Buttons highlighted exactly at position `a` contain one highlighted
      button when `a` is a position of the list, and none otherwise. */
  lemma {:induction false} ActiveCountAtPosition(buttons: seq<Button>, a: int)
    requires forall i :: 0 <= i < |buttons| ==> (buttons[i].active <==> i == a)
    ensures ActiveCount(buttons) == if 0 <= a < |buttons| then 1 else 0
  {
    if buttons != [] {
      var prefix := buttons[..|buttons| - 1];
      assert forall i :: 0 <= i < |prefix| ==> prefix[i] == buttons[i];
      ActiveCountAtPosition(prefix, a);
    }
  }

  /** Exactly one button is active when `activeCategory` indexes the list,
      and none otherwise. */
  lemma ActiveButtons(categories: seq<Category>, activeCategory: int)
    ensures ActiveCount(Buttons(categories, activeCategory)) == if 0 <= activeCategory < |categories| then 1 else 0
  {
    ActiveCountAtPosition(Buttons(categories, activeCategory), activeCategory);
  }

  /** No two buttons are active at once. */
  lemma AtMostOneActive(categories: seq<Category>, activeCategory: int, i: int, j: int)
    requires 0 <= i < |categories| && 0 <= j < |categories|
    requires Buttons(categories, activeCategory)[i].active && Buttons(categories, activeCategory)[j].active
    ensures i == j
  {
  }
}
