/**
 * The one-item-per-category rule of the tag pickers: a selection keeps, for
 * every known category, only its most recent item, and keeps every item the
 * catalog does not know.
 */
module Selection {
  import opened Options
  import opened Catalogs

  /**
   * `item_to_cat.get(name)`: the category the catalog assigns to an item
   * name. The table is filled category by category, item by item, so when a
   * name is listed under several categories the last one wins.
   */
  function ItemCategory(data: seq<Category<Entry>>, name: string): (r: Option<string>)
    ensures r.Some? <==> exists i :: 0 <= i < |data| && name in EntryNames(data[i].items)
    ensures r.Some? ==> exists i :: 0 <= i < |data| && data[i].name == r.value && name in EntryNames(data[i].items)
  {
    if data == [] then None
    else
      var n := |data| - 1;
      if name in EntryNames(data[n].items) then Some(data[n].name)
      else
        var r := ItemCategory(data[..n], name);
        assert forall i :: 0 <= i < n ==> data[..n][i] == data[i];
        r
  }

  /** The category that `if cat:` acts on: blank when the item is unknown or its category is named "". */
  function KnownCategory(data: seq<Category<Entry>>, name: string): string {
    match ItemCategory(data, name)
    case Some(c) => c
    case None => ""
  }

  /** The non-blank categories of the items of `s`. */
  function KnownCats(s: seq<string>, data: seq<Category<Entry>>): set<string> {
    set x | x in s && KnownCategory(data, x) != "" :: KnownCategory(data, x)
  }

  /**
   * The selection `handle_tag_selection` keeps: an item stays when its
   * category is blank or no later item has the same category.
   */
  function Normalized(sel: seq<string>, data: seq<Category<Entry>>): seq<string> {
    if sel == [] then []
    else
      var rest := Normalized(sel[1..], data);
      var c := KnownCategory(data, sel[0]);
      if c == "" || c !in KnownCats(sel[1..], data) then [sel[0]] + rest else rest
  }

  /** `a` is `b` with some elements left out, the others kept in order. */
  predicate Subsequence(a: seq<string>, b: seq<string>) {
    if a == [] then true
    else if b == [] then false
    else (a[0] == b[0] && Subsequence(a[1..], b[1..])) || Subsequence(a, b[1..])
  }

  /** The items of `s` whose category is blank, in order and with repeats. */
  function Unknowns(s: seq<string>, data: seq<Category<Entry>>): seq<string> {
    if s == [] then []
    else if KnownCategory(data, s[0]) == "" then [s[0]] + Unknowns(s[1..], data)
    else Unknowns(s[1..], data)
  }

  lemma KnownCatsCons(sel: seq<string>, data: seq<Category<Entry>>)
    requires sel != []
    ensures KnownCats(sel, data) ==
      KnownCats(sel[1..], data) + (if KnownCategory(data, sel[0]) == "" then {} else {KnownCategory(data, sel[0])})
  {
    assert forall x :: x in sel <==> x == sel[0] || x in sel[1..] by {
      assert sel == [sel[0]] + sel[1..];
    }
  }

  /** The normalised selection has only items of the input. */
  lemma {:induction false} NormalizedElements(sel: seq<string>, data: seq<Category<Entry>>)
    ensures forall x :: x in Normalized(sel, data) ==> x in sel
  {
    if sel != [] {
      NormalizedElements(sel[1..], data);
    }
  }

  /** The normalised selection is a subsequence of the input: items keep their order. */
  lemma {:induction false} NormalizedSubsequence(sel: seq<string>, data: seq<Category<Entry>>)
    ensures Subsequence(Normalized(sel, data), sel)
  {
    if sel != [] {
      NormalizedSubsequence(sel[1..], data);
    }
  }

  /** Every category of the input that is known is still represented. */
  lemma {:induction false} NormalizedKeepsCategories(sel: seq<string>, data: seq<Category<Entry>>)
    ensures KnownCats(Normalized(sel, data), data) == KnownCats(sel, data)
  {
    if sel != [] {
      NormalizedKeepsCategories(sel[1..], data);
      KnownCatsCons(sel, data);
      var rest := Normalized(sel[1..], data);
      var c := KnownCategory(data, sel[0]);
      if c == "" || c !in KnownCats(sel[1..], data) {
        KnownCatsCons([sel[0]] + rest, data);
        assert ([sel[0]] + rest)[1..] == rest;
      }
    }
  }

  /** No two items of `r` share a known category. */
  predicate OnePerCategory(r: seq<string>, data: seq<Category<Entry>>) {
    forall i, j :: 0 <= i < j < |r| && KnownCategory(data, r[i]) != "" ==>
      KnownCategory(data, r[i]) != KnownCategory(data, r[j])
  }

  /** Putting in front an item whose category is blank or new keeps one item per category. */
  lemma OnePerCategoryCons(h: string, rest: seq<string>, data: seq<Category<Entry>>)
    requires OnePerCategory(rest, data)
    requires KnownCategory(data, h) == "" || KnownCategory(data, h) !in KnownCats(rest, data)
    ensures OnePerCategory([h] + rest, data)
  {
    var r := [h] + rest;
    forall i, j | 0 <= i < j < |r| && KnownCategory(data, r[i]) != ""
      ensures KnownCategory(data, r[i]) != KnownCategory(data, r[j])
    {
      if i == 0 {
        assert r[j] == rest[j - 1] && r[j] in rest;
      } else {
        assert r[i] == rest[i - 1] && r[j] == rest[j - 1];
      }
    }
  }

  /** At most one item per known category remains. */
  lemma {:induction false} NormalizedOnePerCategory(sel: seq<string>, data: seq<Category<Entry>>)
    ensures OnePerCategory(Normalized(sel, data), data)
  {
    if sel != [] {
      NormalizedOnePerCategory(sel[1..], data);
      NormalizedKeepsCategories(sel[1..], data);
      var c := KnownCategory(data, sel[0]);
      if c == "" || c !in KnownCats(sel[1..], data) {
        OnePerCategoryCons(sel[0], Normalized(sel[1..], data), data);
      }
    }
  }

  /** A kept item of a known category is the last item of the input with that category. */
  lemma {:induction false} NormalizedKeepsLast(sel: seq<string>, data: seq<Category<Entry>>)
    ensures forall x :: x in Normalized(sel, data) && KnownCategory(data, x) != "" ==>
      exists i :: 0 <= i < |sel| && sel[i] == x &&
        (forall j :: i < j < |sel| ==> KnownCategory(data, sel[j]) != KnownCategory(data, x))
  {
    if sel != [] {
      NormalizedKeepsLast(sel[1..], data);
      var rest := Normalized(sel[1..], data);
      var c := KnownCategory(data, sel[0]);
      forall x | x in Normalized(sel, data) && KnownCategory(data, x) != ""
        ensures exists i :: (0 <= i < |sel| && sel[i] == x &&
          (forall j :: i < j < |sel| ==> KnownCategory(data, sel[j]) != KnownCategory(data, x)))
      {
        if x in rest {
          var i :| 0 <= i < |sel[1..]| && sel[1..][i] == x &&
            forall j :: i < j < |sel[1..]| ==> KnownCategory(data, sel[1..][j]) != KnownCategory(data, x);
          assert forall j :: i + 1 < j < |sel| ==> sel[j] == sel[1..][j - 1];
          assert sel[i + 1] == x;
        } else {
          assert x == sel[0] && c != "" && c !in KnownCats(sel[1..], data);
          forall j | 0 < j < |sel| ensures KnownCategory(data, sel[j]) != c {
            assert sel[j] in sel[1..];
          }
        }
      }
    }
  }

  /** Items without a known category all survive, repeats included, in order. */
  lemma {:induction false} NormalizedKeepsUnknowns(sel: seq<string>, data: seq<Category<Entry>>)
    ensures Unknowns(Normalized(sel, data), data) == Unknowns(sel, data)
  {
    if sel != [] {
      NormalizedKeepsUnknowns(sel[1..], data);
      var rest := Normalized(sel[1..], data);
      var c := KnownCategory(data, sel[0]);
      if c == "" || c !in KnownCats(sel[1..], data) {
        assert ([sel[0]] + rest)[1..] == rest;
      }
    }
  }

  /** Normalising an already normalised selection changes nothing. */
  lemma {:induction false} NormalizedIdempotent(sel: seq<string>, data: seq<Category<Entry>>)
    ensures Normalized(Normalized(sel, data), data) == Normalized(sel, data)
  {
    if sel != [] {
      NormalizedIdempotent(sel[1..], data);
      NormalizedKeepsCategories(sel[1..], data);
      var rest := Normalized(sel[1..], data);
      var c := KnownCategory(data, sel[0]);
      if c == "" || c !in KnownCats(sel[1..], data) {
        var r := [sel[0]] + rest;
        assert r[0] == sel[0] && r[1..] == rest;
        assert Normalized(r, data) == [sel[0]] + Normalized(rest, data);
      }
    }
  }

  /** The `item_to_cat` table: every listed name with the category that lists it last. */
  method ItemToCat(data: seq<Category<Entry>>) returns (itemToCat: map<string, string>)
    ensures forall name :: name in itemToCat <==> ItemCategory(data, name).Some?
    ensures forall name :: name in itemToCat ==> itemToCat[name] == ItemCategory(data, name).value
  {
    itemToCat := map[];
    var i := 0;
    while i < |data|
      invariant 0 <= i <= |data|
      invariant forall name :: name in itemToCat <==> ItemCategory(data[..i], name).Some?
      invariant forall name :: name in itemToCat ==> itemToCat[name] == ItemCategory(data[..i], name).value
    {
      var cat := data[i].name;
      var itemsList := data[i].items;
      assert data[..i + 1][..i] == data[..i];
      var j := 0;
      while j < |itemsList|
        invariant 0 <= j <= |itemsList|
        invariant forall name :: name in itemToCat <==>
          ItemCategory(data[..i], name).Some? || name in EntryNames(itemsList[..j])
        invariant forall name :: name in itemToCat ==>
          itemToCat[name] == (if name in EntryNames(itemsList[..j]) then cat else ItemCategory(data[..i], name).value)
      {
        assert EntryNames(itemsList[..j + 1]) == EntryNames(itemsList[..j]) + {itemsList[j].name} by {
          assert itemsList[..j + 1] == itemsList[..j] + [itemsList[j]];
        }
        itemToCat := itemToCat[itemsList[j].name := cat];
        j := j + 1;
      }
      assert itemsList[..j] == itemsList;
      i := i + 1;
    }
    assert data[..i] == data;
  }

  /** The loop of `handle_tag_selection`: walk the selection backwards, keeping one item per seen category. */
  method NormalizeSelection(selectedItems: seq<string>, data: seq<Category<Entry>>) returns (finalList: seq<string>)
    ensures finalList == Normalized(selectedItems, data)
  {
    var itemToCat := ItemToCat(data);
    var seenCats: set<string> := {};
    finalList := [];
    var i := |selectedItems|;
    while i > 0
      invariant 0 <= i <= |selectedItems|
      invariant finalList == Normalized(selectedItems[i..], data)
      invariant seenCats == KnownCats(selectedItems[i..], data)
    {
      i := i - 1;
      var item := selectedItems[i];
      assert selectedItems[i..][1..] == selectedItems[i + 1..];
      KnownCatsCons(selectedItems[i..], data);
      if item in itemToCat && itemToCat[item] != "" {
        var cat := itemToCat[item];
        if cat !in seenCats {
          seenCats := seenCats + {cat};
          finalList := [item] + finalList;
        }
      } else {
        finalList := [item] + finalList;
      }
    }
  }
}
