/**
 * What the randomisers draw from a catalog. Every `random.choice`,
 * `random.sample` and `random.randint` is an oracle argument: a position (or
 * a count) whose legal range the preconditions state; what is proved holds
 * for every legal draw.
 */
module Sampling {
  import opened Options
  import opened Session
  import opened Catalogs
  import opened Edits
  import opened StateOps

  function Min(a: int, b: int): int {
    if a <= b then a else b
  }

  /** No position occurs twice. */
  predicate NoRepeats(s: seq<nat>) {
    forall i, j :: 0 <= i < j < |s| ==> s[i] != s[j]
  }

  // ---------------------------------------------------------------------------
  // randomize_hier_callback: one category, one item
  // ---------------------------------------------------------------------------

  /** `[c for c in data.keys() if data[c]]`, as positions in the catalog. */
  function NonEmptyCats<T>(data: seq<Category<T>>): (r: seq<nat>)
    ensures forall k :: 0 <= k < |r| ==> r[k] < |data| && data[r[k]].items != []
    ensures forall i :: 0 <= i < |data| && data[i].items != [] ==> i in r
  {
    if data == [] then []
    else
      var n := |data| - 1;
      var r := NonEmptyCats(data[..n]);
      assert forall i :: 0 <= i < n ==> data[..n][i] == data[i];
      if data[n].items != [] then r + [n] else r
  }

  /** The draws are legal: a position among the non-empty categories, then among its items. */
  predicate HierOracle(data: seq<Category<string>>, pickCat: nat, pickItem: nat) {
    var cats := NonEmptyCats(data);
    cats != [] ==> pickCat < |cats| && pickItem < |data[cats[pickCat]].items|
  }

  /** The category and item `randomize_hier_callback` draws; nothing when every category is empty. */
  function HierChoice(data: seq<Category<string>>, pickCat: nat, pickItem: nat): (r: Option<(string, string)>)
    requires HierOracle(data, pickCat, pickItem)
    ensures r.None? <==> forall i :: 0 <= i < |data| ==> data[i].items == []
    ensures r.Some? ==> exists i :: 0 <= i < |data| && data[i].name == r.value.0 && r.value.1 in data[i].items
  {
    var cats := NonEmptyCats(data);
    if cats == [] then None
    else
      var c := cats[pickCat];
      Some((data[c].name, data[c].items[pickItem]))
  }

  /** The state `randomize_hier_callback(key, data)` leaves: `key_cat`, `key_sel`, `key` set when a draw exists. */
  function HierUpdate(m: State, key: string, data: seq<Category<string>>, pickCat: nat, pickItem: nat): State
    requires HierOracle(data, pickCat, pickItem)
  {
    match HierChoice(data, pickCat, pickItem)
    case None => m
    case Some((c, v)) => m[CatKey(key) := Str(c)][SelKey(key) := Str(v)][key := Str(v)]
  }

  /** Each listed key has a legal draw from its catalog. */
  predicate HierPicksValid(keys: seq<string>, catalogs: seq<seq<Category<string>>>, picks: seq<(nat, nat)>) {
    |catalogs| == |keys| && |picks| == |keys|
    && forall k :: 0 <= k < |keys| ==> HierOracle(catalogs[k], picks[k].0, picks[k].1)
  }

  /** `randomize_hier_callback` applied to each listed key in turn, with that key's catalog. */
  function HierUpdates(m: State, keys: seq<string>, catalogs: seq<seq<Category<string>>>, picks: seq<(nat, nat)>): State
    requires HierPicksValid(keys, catalogs, picks)
  {
    if keys == [] then m
    else
      var n := |keys| - 1;
      assert HierPicksValid(keys[..n], catalogs[..n], picks[..n]) by {
        assert forall k :: 0 <= k < n ==> catalogs[..n][k] == catalogs[k] && picks[..n][k] == picks[k];
      }
      HierUpdate(HierUpdates(m, keys[..n], catalogs[..n], picks[..n]), keys[n], catalogs[n], picks[n].0, picks[n].1)
  }

  /** Drawing the hierarchical fields touches no key outside their `_cat`/`_sel`/value triples. */
  lemma {:induction false} HierUpdatesFrame(m: State, keys: seq<string>, catalogs: seq<seq<Category<string>>>, picks: seq<(nat, nat)>, x: string)
    requires HierPicksValid(keys, catalogs, picks) && !InTriple(keys, x)
    ensures x in HierUpdates(m, keys, catalogs, picks) <==> x in m
    ensures x in m ==> HierUpdates(m, keys, catalogs, picks)[x] == m[x]
  {
    if keys != [] {
      var n := |keys| - 1;
      assert HierPicksValid(keys[..n], catalogs[..n], picks[..n]) by {
        assert forall k :: 0 <= k < n ==> catalogs[..n][k] == catalogs[k] && picks[..n][k] == picks[k];
      }
      assert !InTriple(keys[..n], x) by {
        assert forall k :: k in keys[..n] ==> k in keys;
      }
      assert keys[n] in keys;
      HierUpdatesFrame(m, keys[..n], catalogs[..n], picks[..n], x);
    }
  }

  // ---------------------------------------------------------------------------
  // randomize_tags_callback: one item from each of 1-4 distinct categories
  // ---------------------------------------------------------------------------

  /** Each sampled position is a category, and each item draw fits its category. */
  predicate PicksValid(data: seq<Category<Entry>>, sample: seq<nat>, picks: seq<nat>) {
    && |picks| == |sample|
    && (forall k :: 0 <= k < |sample| ==> sample[k] < |data|)
    && (forall k :: 0 <= k < |sample| && data[sample[k]].items != [] ==> picks[k] < |data[sample[k]].items|)
  }

  /**
   * The draws are legal: `random.randint(1, min(4, n))` categories sampled
   * without repetition (when there are any), then one item of each.
   */
  predicate TagOracle(data: seq<Category<Entry>>, sample: seq<nat>, picks: seq<nat>) {
    && (data != [] ==> 1 <= |sample| <= Min(4, |data|))
    && NoRepeats(sample)
    && PicksValid(data, sample, picks)
  }

  /** The sampled categories that have items, in sampling order. */
  function SampledNonEmpty(data: seq<Category<Entry>>, sample: seq<nat>): (src: seq<nat>)
    requires forall k :: 0 <= k < |sample| ==> sample[k] < |data|
    ensures |src| <= |sample|
    ensures forall k :: 0 <= k < |src| ==> src[k] in sample && data[src[k]].items != []
    ensures forall k :: 0 <= k < |sample| && data[sample[k]].items != [] ==> sample[k] in src
  {
    if sample == [] then []
    else
      var n := |sample| - 1;
      var r := SampledNonEmpty(data, sample[..n]);
      assert forall x :: x in sample[..n] ==> x in sample;
      assert forall k :: 0 <= k < n ==> sample[k] in sample[..n];
      if data[sample[n]].items != [] then r + [sample[n]] else r
  }

  lemma NoRepeatsAppend(r: seq<nat>, x: nat)
    requires NoRepeats(r) && x !in r
    ensures NoRepeats(r + [x])
  {
    var r' := r + [x];
    forall i, j | 0 <= i < j < |r'| ensures r'[i] != r'[j] {
      if j == |r| {
        assert r'[i] == r[i] && r[i] in r;
      } else {
        assert r'[i] == r[i] && r'[j] == r[j];
      }
    }
  }

  /** Sampling without repetition gives distinct non-empty categories. */
  lemma {:induction false} SampledNonEmptyDistinct(data: seq<Category<Entry>>, sample: seq<nat>)
    requires forall k :: 0 <= k < |sample| ==> sample[k] < |data|
    requires NoRepeats(sample)
    ensures NoRepeats(SampledNonEmpty(data, sample))
  {
    if sample != [] {
      var n := |sample| - 1;
      var prefix := sample[..n];
      assert forall k :: 0 <= k < n ==> prefix[k] == sample[k];
      SampledNonEmptyDistinct(data, prefix);
      var src := SampledNonEmpty(data, prefix);
      if data[sample[n]].items != [] {
        forall k | 0 <= k < |src| ensures src[k] != sample[n] {
          var j :| 0 <= j < n && prefix[j] == src[k];
        }
        NoRepeatsAppend(src, sample[n]);
      }
    }
  }

  /** The names drawn: one per sampled category that has items, in sampling order. */
  function TagPicks(data: seq<Category<Entry>>, sample: seq<nat>, picks: seq<nat>): seq<string>
    requires PicksValid(data, sample, picks)
  {
    if sample == [] then []
    else
      var n := |sample| - 1;
      var r := TagPicks(data, sample[..n], picks[..n]);
      var items := data[sample[n]].items;
      if items != [] then r + [items[picks[n]].name] else r
  }

  /** The k-th name drawn is an item of the k-th sampled category that has items. */
  lemma {:induction false} TagPicksSpec(data: seq<Category<Entry>>, sample: seq<nat>, picks: seq<nat>)
    requires PicksValid(data, sample, picks)
    ensures var src := SampledNonEmpty(data, sample);
      && |TagPicks(data, sample, picks)| == |src|
      && forall k :: 0 <= k < |src| ==> TagPicks(data, sample, picks)[k] in EntryNames(data[src[k]].items)
  {
    if sample != [] {
      var n := |sample| - 1;
      assert forall k :: 0 <= k < n ==> sample[..n][k] == sample[k] && picks[..n][k] == picks[k];
      TagPicksSpec(data, sample[..n], picks[..n]);
      var items := data[sample[n]].items;
      if items != [] {
        assert items[picks[n]] in items;
      }
    }
  }

  /** A legal draw names at most four items. */
  lemma TagPicksAtMostFour(data: seq<Category<Entry>>, sample: seq<nat>, picks: seq<nat>)
    requires TagOracle(data, sample, picks)
    ensures |TagPicks(data, sample, picks)| <= 4
  {
    TagPicksSpec(data, sample, picks);
    if data == [] {
      assert sample == [];
    }
  }

  /** The loop of `randomize_tags_callback`: one name per sampled category that has items. */
  method DrawTags(data: seq<Category<Entry>>, sample: seq<nat>, picks: seq<nat>) returns (selecaoFinal: seq<string>)
    requires PicksValid(data, sample, picks)
    ensures selecaoFinal == TagPicks(data, sample, picks)
  {
    selecaoFinal := [];
    var k := 0;
    while k < |sample|
      invariant 0 <= k <= |sample|
      invariant selecaoFinal == TagPicks(data, sample[..k], picks[..k])
    {
      assert sample[..k + 1][..k] == sample[..k] && picks[..k + 1][..k] == picks[..k];
      var itensDaCat := data[sample[k]].items;
      if itensDaCat != [] {
        selecaoFinal := selecaoFinal + [itensDaCat[picks[k]].name];
      }
      k := k + 1;
    }
    assert sample[..k] == sample && picks[..k] == picks;
  }

  // ---------------------------------------------------------------------------
  // random_vibe_generator: 3-5 rounds, each drawing a truthy item
  // ---------------------------------------------------------------------------

  /** `[i for i in itens if i]`. */
  function TruthyItems(items: seq<string>): (r: seq<string>)
    ensures forall x :: x in r <==> x in items && x != ""
  {
    if items == [] then []
    else
      var rest := TruthyItems(items[1..]);
      assert forall x :: x in items <==> x == items[0] || x in items[1..];
      if items[0] != "" then [items[0]] + rest else rest
  }

  /** `valid_cats`: the positions of the categories that have a truthy item. */
  function ValidCats(data: seq<Category<string>>): (r: seq<nat>)
    ensures forall k :: 0 <= k < |r| ==> r[k] < |data| && TruthyItems(data[r[k]].items) != []
    ensures forall i :: 0 <= i < |data| && TruthyItems(data[i].items) != [] ==> i in r
  {
    if data == [] then []
    else
      var n := |data| - 1;
      var r := ValidCats(data[..n]);
      assert forall i :: 0 <= i < n ==> data[..n][i] == data[i];
      if TruthyItems(data[n].items) != [] then r + [n] else r
  }

  /** Each round's draws are legal: a valid category, then one of its truthy items. */
  predicate RoundsValid(data: seq<Category<string>>, catPicks: seq<nat>, itemPicks: seq<nat>) {
    && |itemPicks| == |catPicks|
    && forall k :: 0 <= k < |catPicks| ==>
         && catPicks[k] < |ValidCats(data)|
         && itemPicks[k] < |TruthyItems(data[ValidCats(data)[catPicks[k]]].items)|
  }

  /** The draws are legal: `random.randint(3, 5)` rounds when some category has a truthy item. */
  predicate VibeOracle(data: seq<Category<string>>, catPicks: seq<nat>, itemPicks: seq<nat>) {
    ValidCats(data) != [] ==> 3 <= |catPicks| <= 5 && RoundsValid(data, catPicks, itemPicks)
  }

  /** The list after the given rounds, each appending its item unless already present. */
  function VibeDraw(data: seq<Category<string>>, catPicks: seq<nat>, itemPicks: seq<nat>): seq<string>
    requires RoundsValid(data, catPicks, itemPicks)
  {
    if catPicks == [] then []
    else
      var n := |catPicks| - 1;
      assert RoundsValid(data, catPicks[..n], itemPicks[..n]) by {
        assert forall k :: 0 <= k < n ==> catPicks[..n][k] == catPicks[k] && itemPicks[..n][k] == itemPicks[k];
      }
      var r := VibeDraw(data, catPicks[..n], itemPicks[..n]);
      AppendAbsent(r, TruthyItems(data[ValidCats(data)[catPicks[n]]].items)[itemPicks[n]])
  }

  /** The vibe list `random_vibe_generator` leaves. */
  function VibeResult(data: seq<Category<string>>, catPicks: seq<nat>, itemPicks: seq<nat>): seq<string>
    requires VibeOracle(data, catPicks, itemPicks)
  {
    if ValidCats(data) == [] then [] else VibeDraw(data, catPicks, itemPicks)
  }

  /** The drawn list has no repeats, at most one entry per round, and only truthy catalog items. */
  lemma {:induction false} VibeDrawSpec(data: seq<Category<string>>, catPicks: seq<nat>, itemPicks: seq<nat>)
    requires RoundsValid(data, catPicks, itemPicks)
    ensures var r := VibeDraw(data, catPicks, itemPicks);
      && Distinct(r) && |r| <= |catPicks|
      && forall x :: x in r ==> x != "" && exists i :: 0 <= i < |data| && x in data[i].items
  {
    if catPicks != [] {
      var n := |catPicks| - 1;
      assert RoundsValid(data, catPicks[..n], itemPicks[..n]) by {
        assert forall k :: 0 <= k < n ==> catPicks[..n][k] == catPicks[k] && itemPicks[..n][k] == itemPicks[k];
      }
      VibeDrawSpec(data, catPicks[..n], itemPicks[..n]);
      var c := ValidCats(data)[catPicks[n]];
      var v := TruthyItems(data[c].items)[itemPicks[n]];
      assert v in TruthyItems(data[c].items);
    }
  }

  /**
   * `random_vibe_generator` leaves `[]` when no category has a truthy item,
   * and otherwise at most five distinct truthy catalog items.
   */
  lemma VibeResultSpec(data: seq<Category<string>>, catPicks: seq<nat>, itemPicks: seq<nat>)
    requires VibeOracle(data, catPicks, itemPicks)
    ensures (forall i :: 0 <= i < |data| ==> forall x :: x in data[i].items ==> x == "") ==>
      VibeResult(data, catPicks, itemPicks) == []
    ensures var r := VibeResult(data, catPicks, itemPicks);
      && Distinct(r) && |r| <= 5
      && forall x :: x in r ==> x != "" && exists i :: 0 <= i < |data| && x in data[i].items
  {
    if ValidCats(data) != [] {
      VibeDrawSpec(data, catPicks, itemPicks);
      var i := ValidCats(data)[0];
      var x := TruthyItems(data[i].items)[0];
      assert x in TruthyItems(data[i].items);
    }
  }

  /** The round drawn at position `k`: a valid category, then one of its truthy items. */
  function RoundItem(data: seq<Category<string>>, catPicks: seq<nat>, itemPicks: seq<nat>, k: nat): string
    requires RoundsValid(data, catPicks, itemPicks) && k < |catPicks|
  {
    TruthyItems(data[ValidCats(data)[catPicks[k]]].items)[itemPicks[k]]
  }

  /** The first `k` rounds of legal draws are legal, and the `k`-th round extends them. */
  lemma VibeDrawStep(data: seq<Category<string>>, catPicks: seq<nat>, itemPicks: seq<nat>, k: nat)
    requires RoundsValid(data, catPicks, itemPicks) && k < |catPicks|
    ensures RoundsValid(data, catPicks[..k], itemPicks[..k])
    ensures RoundsValid(data, catPicks[..k + 1], itemPicks[..k + 1])
    ensures VibeDraw(data, catPicks[..k + 1], itemPicks[..k + 1]) ==
      AppendAbsent(VibeDraw(data, catPicks[..k], itemPicks[..k]), RoundItem(data, catPicks, itemPicks, k))
  {
    assert forall j :: 0 <= j <= k ==> catPicks[..k + 1][j] == catPicks[j] && itemPicks[..k + 1][j] == itemPicks[j];
    assert catPicks[..k + 1][..k] == catPicks[..k] && itemPicks[..k + 1][..k] == itemPicks[..k];
  }

  /** The loop of `random_vibe_generator`, from an emptied list. */
  method DrawVibes(vibeData: seq<Category<string>>, catPicks: seq<nat>, itemPicks: seq<nat>) returns (vibes: seq<string>)
    requires VibeOracle(vibeData, catPicks, itemPicks)
    ensures vibes == VibeResult(vibeData, catPicks, itemPicks)
  {
    vibes := [];
    var validCats := ValidCats(vibeData);
    if validCats != [] {
      var k := 0;
      while k < |catPicks|
        invariant 0 <= k <= |catPicks|
        invariant RoundsValid(vibeData, catPicks[..k], itemPicks[..k])
        invariant vibes == VibeDraw(vibeData, catPicks[..k], itemPicks[..k])
      {
        VibeDrawStep(vibeData, catPicks, itemPicks, k);
        var c := validCats[catPicks[k]];
        var itens := TruthyItems(vibeData[c].items);
        if itens != [] {
          var v := itens[itemPicks[k]];
          if v !in vibes {
            vibes := vibes + [v];
          }
        }
        k := k + 1;
      }
      assert catPicks[..k] == catPicks && itemPicks[..k] == itemPicks;
    }
  }
}
