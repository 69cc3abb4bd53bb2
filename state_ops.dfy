/**
 * The whole-dictionary effects of the reset, restore and categorized-picker
 * callbacks, as functions from the session state before to the state after.
 * The callbacks are proved to leave exactly these states; the lemmas here say,
 * key by key, what changed and that nothing else did.
 */
module StateOps {
  import opened Text
  import opened Session

  const HistoryKey: string := "history"
  const VibeKey: string := "vibe_emocional"
  const ShowPromptKey: string := "show_prompt"
  const NewVibeInputKey: string := "new_vibe_input"

  // ---------------------------------------------------------------------------
  // clear_all
  // ---------------------------------------------------------------------------

  /** The empty value of a default key: `[]` for the vibe list, `""` otherwise. */
  function ResetValue(k: string): Value {
    if k == VibeKey then Lst([]) else Str("")
  }

  /** The first loop of `clear_all`: every listed key but `history` is reset. */
  function ClearDefaults(m: State, keys: seq<string>): State {
    if keys == [] then m
    else
      var n := |keys| - 1;
      var r := ClearDefaults(m, keys[..n]);
      if keys[n] == HistoryKey then r else r[keys[n] := ResetValue(keys[n])]
  }

  lemma {:induction false} ClearDefaultsSpec(m: State, keys: seq<string>)
    ensures forall k :: k in ClearDefaults(m, keys) <==> k in m || (k in keys && k != HistoryKey)
    ensures forall k :: k in keys && k != HistoryKey ==> ClearDefaults(m, keys)[k] == ResetValue(k)
    ensures forall k :: k in m && (k !in keys || k == HistoryKey) ==> ClearDefaults(m, keys)[k] == m[k]
  {
    if keys != [] {
      var n := |keys| - 1;
      ClearDefaultsSpec(m, keys[..n]);
      assert forall k :: k in keys <==> k in keys[..n] || k == keys[n] by {
        assert keys == keys[..n] + [keys[n]];
      }
    }
  }

  /** `x` is `k_cat`, `k_sel` or `k` for a listed `k`. */
  predicate InTriple(keys: seq<string>, x: string) {
    exists k :: k in keys && (x == CatKey(k) || x == SelKey(k) || x == k)
  }

  /** The second loop of `clear_all` (and `clear_hier_callback` for one key): `k_cat`, `k_sel`, `k` become `""`. */
  function ClearTriples(m: State, keys: seq<string>): State {
    if keys == [] then m
    else
      var n := |keys| - 1;
      var k := keys[n];
      ClearTriples(m, keys[..n])[CatKey(k) := Str("")][SelKey(k) := Str("")][k := Str("")]
  }

  lemma {:induction false} ClearTriplesAt(m: State, keys: seq<string>, x: string)
    ensures x in ClearTriples(m, keys) <==> x in m || InTriple(keys, x)
    ensures InTriple(keys, x) ==> ClearTriples(m, keys)[x] == Str("")
    ensures x in m && !InTriple(keys, x) ==> ClearTriples(m, keys)[x] == m[x]
  {
    if keys != [] {
      var n := |keys| - 1;
      var k := keys[n];
      var pk := keys[..n];
      ClearTriplesAt(m, pk, x);
      assert InTriple(keys, x) <==> InTriple(pk, x) || x == CatKey(k) || x == SelKey(k) || x == k by {
        assert keys == pk + [k];
        if InTriple(keys, x) {
          var k' :| k' in keys && (x == CatKey(k') || x == SelKey(k') || x == k');
          assert k' in pk || k' == k;
        }
        if InTriple(pk, x) {
          var k' :| k' in pk && (x == CatKey(k') || x == SelKey(k') || x == k');
          assert k' in keys;
        }
        assert k in keys;
      }
    }
  }

  lemma ClearTriplesSpec(m: State, keys: seq<string>)
    ensures forall x :: x in ClearTriples(m, keys) <==> x in m || InTriple(keys, x)
    ensures forall x :: InTriple(keys, x) ==> ClearTriples(m, keys)[x] == Str("")
    ensures forall x :: x in m && !InTriple(keys, x) ==> ClearTriples(m, keys)[x] == m[x]
  {
    forall x {
      ClearTriplesAt(m, keys, x);
    }
  }

  /**
   * The state `clear_all` leaves: defaults reset, the hierarchical triples
   * cleared, `show_prompt` false, and (in the variant that does so) the
   * new-vibe input blanked when present.
   */
  function ClearAllState(m: State, defaultKeys: seq<string>, hierKeys: seq<string>, blankVibeInput: bool): State {
    var r := ClearTriples(ClearDefaults(m, defaultKeys), hierKeys)[ShowPromptKey := Bool(false)];
    if blankVibeInput && NewVibeInputKey in r then r[NewVibeInputKey := Str("")] else r
  }

  /**
   * Key by key: `show_prompt` ends false; the hierarchical triples are `""`;
   * the other defaults except `history` are reset; every other key, `history`
   * included, keeps its value, and no key but these appears.
   */
  lemma ClearAllSpec(m: State, defaultKeys: seq<string>, hierKeys: seq<string>, blankVibeInput: bool)
    requires NewVibeInputKey in defaultKeys && HistoryKey !in hierKeys && ShowPromptKey !in hierKeys
    requires !InTriple(hierKeys, HistoryKey) && !InTriple(hierKeys, ShowPromptKey)
    ensures var r := ClearAllState(m, defaultKeys, hierKeys, blankVibeInput);
      && r[ShowPromptKey] == Bool(false)
      && (forall x :: x in r <==> x in m || x == ShowPromptKey || InTriple(hierKeys, x) || (x in defaultKeys && x != HistoryKey))
      && (forall x :: x != ShowPromptKey && InTriple(hierKeys, x) ==> r[x] == Str(""))
      && (forall x :: x != ShowPromptKey && !InTriple(hierKeys, x) && x in defaultKeys && x != HistoryKey ==> r[x] == ResetValue(x))
      && (forall x :: x in m && x != ShowPromptKey && !InTriple(hierKeys, x) && (x !in defaultKeys || x == HistoryKey) ==> r[x] == m[x])
  {
    var d := ClearDefaults(m, defaultKeys);
    ClearDefaultsSpec(m, defaultKeys);
    ClearTriplesSpec(d, hierKeys);
    var r := ClearTriples(d, hierKeys)[ShowPromptKey := Bool(false)];
    assert NewVibeInputKey in r;
    if !InTriple(hierKeys, NewVibeInputKey) && NewVibeInputKey != ShowPromptKey {
      assert r[NewVibeInputKey] == Str("");
    }
  }

  /** One key that `clear_all` does not reset keeps its value (or stays absent). */
  lemma ClearAllUntouched(m: State, defaultKeys: seq<string>, hierKeys: seq<string>, blankVibeInput: bool, x: string)
    requires x != ShowPromptKey && !InTriple(hierKeys, x) && (x !in defaultKeys || x == HistoryKey)
    requires blankVibeInput ==> x != NewVibeInputKey
    ensures x in ClearAllState(m, defaultKeys, hierKeys, blankVibeInput) <==> x in m
    ensures x in m ==> ClearAllState(m, defaultKeys, hierKeys, blankVibeInput)[x] == m[x]
  {
    ClearDefaultsSpec(m, defaultKeys);
    ClearTriplesAt(ClearDefaults(m, defaultKeys), hierKeys, x);
  }

  /** One default key outside the triples ends holding its empty value. */
  lemma ClearAllResets(m: State, defaultKeys: seq<string>, hierKeys: seq<string>, blankVibeInput: bool, x: string)
    requires x in defaultKeys && x != HistoryKey && x != ShowPromptKey && !InTriple(hierKeys, x)
    requires blankVibeInput ==> x != NewVibeInputKey
    ensures x in ClearAllState(m, defaultKeys, hierKeys, blankVibeInput)
    ensures ClearAllState(m, defaultKeys, hierKeys, blankVibeInput)[x] == ResetValue(x)
  {
    ClearDefaultsSpec(m, defaultKeys);
    ClearTriplesAt(ClearDefaults(m, defaultKeys), hierKeys, x);
  }

  /** In the variant that blanks it, the new-vibe input ends `""` whatever the key lists say. */
  lemma ClearAllBlanksVibeInput(m: State, defaultKeys: seq<string>, hierKeys: seq<string>)
    requires NewVibeInputKey in defaultKeys
    ensures NewVibeInputKey in ClearAllState(m, defaultKeys, hierKeys, true)
    ensures ClearAllState(m, defaultKeys, hierKeys, true)[NewVibeInputKey] == Str("")
  {
    ClearDefaultsSpec(m, defaultKeys);
    ClearTriplesAt(ClearDefaults(m, defaultKeys), hierKeys, NewVibeInputKey);
  }

  // ---------------------------------------------------------------------------
  // callback_restaurar
  // ---------------------------------------------------------------------------

  /** `x` is `k_cat` or `k_sel` for a listed `k`. */
  predicate InCatSel(keys: seq<string>, x: string) {
    exists k :: k in keys && (x == CatKey(k) || x == SelKey(k))
  }

  /** The loop that blanks `k_cat` and `k_sel` for each listed key. */
  function ClearCatSel(m: State, keys: seq<string>): State {
    if keys == [] then m
    else
      var n := |keys| - 1;
      ClearCatSel(m, keys[..n])[CatKey(keys[n]) := Str("")][SelKey(keys[n]) := Str("")]
  }

  lemma {:induction false} ClearCatSelAt(m: State, keys: seq<string>, x: string)
    ensures x in ClearCatSel(m, keys) <==> x in m || InCatSel(keys, x)
    ensures InCatSel(keys, x) ==> ClearCatSel(m, keys)[x] == Str("")
    ensures x in m && !InCatSel(keys, x) ==> ClearCatSel(m, keys)[x] == m[x]
  {
    if keys != [] {
      var n := |keys| - 1;
      var k := keys[n];
      var pk := keys[..n];
      ClearCatSelAt(m, pk, x);
      assert InCatSel(keys, x) <==> InCatSel(pk, x) || x == CatKey(k) || x == SelKey(k) by {
        assert keys == pk + [k];
        if InCatSel(keys, x) {
          var k' :| k' in keys && (x == CatKey(k') || x == SelKey(k'));
          assert k' in pk || k' == k;
        }
        if InCatSel(pk, x) {
          var k' :| k' in pk && (x == CatKey(k') || x == SelKey(k'));
          assert k' in keys;
        }
        assert k in keys;
      }
    }
  }

  lemma ClearCatSelSpec(m: State, keys: seq<string>)
    ensures forall x :: x in ClearCatSel(m, keys) <==> x in m || InCatSel(keys, x)
    ensures forall x :: InCatSel(keys, x) ==> ClearCatSel(m, keys)[x] == Str("")
    ensures forall x :: x in m && !InCatSel(keys, x) ==> ClearCatSel(m, keys)[x] == m[x]
  {
    forall x {
      ClearCatSelAt(m, keys, x);
    }
  }

  /** The state `callback_restaurar` leaves: the parsed fields written, pickers blanked, prompt hidden. */
  function RestoredState(m: State, parsed: map<string, Value>, hierKeys: seq<string>): State {
    ClearCatSel(m + parsed, hierKeys)[ShowPromptKey := Bool(false)]
  }

  /**
   * Key by key: `show_prompt` ends false, the pickers' `_cat`/`_sel` keys are
   * `""`, every other parsed field holds its parsed value, and every other key
   * keeps its value; no other key appears.
   */
  lemma RestoredStateSpec(m: State, parsed: map<string, Value>, hierKeys: seq<string>)
    ensures var r := RestoredState(m, parsed, hierKeys);
      && r[ShowPromptKey] == Bool(false)
      && (forall x :: x in r <==> x in m || x in parsed || x == ShowPromptKey || InCatSel(hierKeys, x))
      && (forall x :: x != ShowPromptKey && InCatSel(hierKeys, x) ==> r[x] == Str(""))
      && (forall x :: x != ShowPromptKey && !InCatSel(hierKeys, x) && x in parsed ==> r[x] == parsed[x])
      && (forall x :: x != ShowPromptKey && !InCatSel(hierKeys, x) && x !in parsed && x in m ==> r[x] == m[x])
  {
    ClearCatSelSpec(m + parsed, hierKeys);
  }

  // ---------------------------------------------------------------------------
  // update_categorized_selection / clear_categorized_callback
  // ---------------------------------------------------------------------------

  /** `f"{main_key}_manual_input"`. */
  function ManualKey(mainKey: string): string {
    mainKey + "_manual_input"
  }

  /** `f"{main_key}_CAT_"`: the prefix of a section's per-category selectboxes. */
  function CatPrefix(mainKey: string): string {
    mainKey + "_CAT_"
  }

  /** A selectbox holds an option (a name, or a `[name, description]` list) or nothing. */
  predicate PickerValue(v: Value) {
    v.Str? || v.Lst? || v.NoneVal?
  }

  /** Every key with the prefix holds a selectbox value. */
  predicate PickersWellFormed(m: State, prefix: string) {
    forall k :: k in m && HasPrefix(k, prefix) ==> PickerValue(m[k])
  }

  /** The key is a selectbox of the section with a truthy choice. */
  predicate Picked(m: State, prefix: string, k: string) {
    k in m && HasPrefix(k, prefix) && Truthy(m[k])
  }

  /** `value[0]` for a list or tuple, the value itself otherwise. */
  function PickedName(v: Value): string
    requires PickerValue(v) && Truthy(v)
  {
    if v.Lst? then v.items[0] else v.s
  }

  /** The names of the chosen selectboxes, in the session's key order `order`. */
  function CategorizedPicks(m: State, order: seq<string>, prefix: string): seq<string>
    requires PickersWellFormed(m, prefix)
  {
    if order == [] then []
    else
      var n := |order| - 1;
      var r := CategorizedPicks(m, order[..n], prefix);
      if Picked(m, prefix, order[n]) then r + [PickedName(m[order[n]])] else r
  }

  /**
   * The picks are the names of the section's chosen selectboxes: each pick
   * comes from one of them, and each of them listed in `order` contributes.
   */
  lemma {:induction false} CategorizedPicksSpec(m: State, order: seq<string>, prefix: string)
    requires PickersWellFormed(m, prefix)
    ensures forall x :: x in CategorizedPicks(m, order, prefix) ==>
      exists k :: k in order && Picked(m, prefix, k) && PickedName(m[k]) == x
    ensures forall k :: k in order && Picked(m, prefix, k) ==> PickedName(m[k]) in CategorizedPicks(m, order, prefix)
  {
    if order != [] {
      var n := |order| - 1;
      CategorizedPicksSpec(m, order[..n], prefix);
      assert forall k :: k in order <==> k in order[..n] || k == order[n] by {
        assert order == order[..n] + [order[n]];
      }
    }
  }

  /** With no chosen selectbox there is nothing to pick. */
  lemma {:induction false} NoPicks(m: State, order: seq<string>, prefix: string)
    requires PickersWellFormed(m, prefix)
    requires forall k :: !Picked(m, prefix, k)
    ensures CategorizedPicks(m, order, prefix) == []
  {
    if order != [] {
      NoPicks(m, order[..|order| - 1], prefix);
    }
  }

  /** `st.session_state.get(manual_key, "").strip()`. */
  function ManualValue(m: State, manualKey: string): string
    requires manualKey in m ==> m[manualKey].Str?
  {
    Strip(if manualKey in m then m[manualKey].s else "")
  }

  /** The list `update_categorized_selection` stores under the section's main key. */
  function CategorizedList(m: State, mainKey: string, manualKey: string, order: seq<string>): seq<string>
    requires PickersWellFormed(m, CatPrefix(mainKey))
    requires manualKey in m ==> m[manualKey].Str?
  {
    var picks := CategorizedPicks(m, order, CatPrefix(mainKey));
    var manual := ManualValue(m, manualKey);
    if manual != "" then picks + [manual] else picks
  }

  /** The state `clear_categorized_callback` leaves. */
  function ClearedCategorized(m: State, mainKey: string, prefix: string): State {
    map k | k in m.Keys + {mainKey} ::
      if k == mainKey then Lst([])
      else if HasPrefix(k, prefix) then NoneVal
      else if k == ManualKey(mainKey) then Str("")
      else m[k]
  }

  /** `_manual_input` and `_CAT_` part company right after the section's key. */
  lemma ManualKeyNotPicker(mainKey: string)
    ensures !HasPrefix(ManualKey(mainKey), CatPrefix(mainKey))
  {
    assert ManualKey(mainKey)[|mainKey| + 1] == 'm';
    assert CatPrefix(mainKey)[|mainKey| + 1] == 'C';
  }

  /** A cleared section's selectboxes all hold nothing. */
  lemma ClearedSelectboxes(m: State, mainKey: string)
    ensures var c := ClearedCategorized(m, mainKey, CatPrefix(mainKey));
      forall k :: k in c && HasPrefix(k, CatPrefix(mainKey)) ==> c[k] == NoneVal
  {
    assert !HasPrefix(mainKey, CatPrefix(mainKey));
  }

  /** A cleared section's manual input, when there is one, is blank. */
  lemma ClearedManualInput(m: State, mainKey: string)
    ensures var c := ClearedCategorized(m, mainKey, CatPrefix(mainKey));
      ManualKey(mainKey) in c ==> c[ManualKey(mainKey)] == Str("")
  {
    ManualKeyNotPicker(mainKey);
    assert ManualKey(mainKey) != mainKey by {
      assert |ManualKey(mainKey)| > |mainKey|;
    }
  }

  /**
   * After a section is cleared, rebuilding its list finds nothing: every
   * selectbox is empty and the manual input is blank, in any key order.
   */
  lemma ClearThenUpdate(m: State, mainKey: string, order: seq<string>)
    ensures var c := ClearedCategorized(m, mainKey, CatPrefix(mainKey));
      && PickersWellFormed(c, CatPrefix(mainKey))
      && (ManualKey(mainKey) in c ==> c[ManualKey(mainKey)].Str?)
      && CategorizedList(c, mainKey, ManualKey(mainKey), order) == []
  {
    var prefix := CatPrefix(mainKey);
    var c := ClearedCategorized(m, mainKey, prefix);
    assert PickersWellFormed(c, prefix) by {
      ClearedSelectboxes(m, mainKey);
    }
    assert ManualKey(mainKey) in c ==> c[ManualKey(mainKey)] == Str("") by {
      ClearedManualInput(m, mainKey);
    }
    assert CategorizedPicks(c, order, prefix) == [] by {
      ClearedSelectboxes(m, mainKey);
      NoPicks(c, order, prefix);
    }
    assert ManualValue(c, ManualKey(mainKey)) == "" by {
      var empty: string := "";
      assert Strip(empty) == "";
    }
  }
}
