/**
 * The widget callbacks of the original single-file application (app/state.py).
 * Each callback updates the session in place and is proved to leave exactly
 * the state a specification function gives for the state before.
 */
module StateCallbacks {
  import opened Options
  import opened Text
  import opened Session
  import opened Catalogs
  import opened Logic
  import opened Selection
  import opened Edits
  import opened Sampling
  import opened StateOps

  /** The fields picked through a category -> item pair of dropdowns, in this version. */
  const HierKeys: seq<string> := ["publico", "tipo_de_gravacao", "narrador"]

  /** Every session key with its initial value, in declaration order. */
  const StateDefaults: seq<(string, Value)> := [
    ("genero", Str("")), ("ritmo", Str("")), ("idioma", Str("")), ("tema", Str("")),
    ("mensagem", Str("")), ("palavras_chave", Str("")), ("referencia", Str("")),
    ("vibe_emocional", Lst([])), ("vibe_cat", Str("")), ("vibe_item", Str("")), ("vibe_manual", Str("")),
    ("prompt_final", Str("")), ("show_prompt", Bool(false)),
    ("estrutura", Str("")), ("estrutura_sel", Str("")),
    ("history", History([])),
    ("new_vibe_input", Str("")),
    ("tom", Str("")), ("influencia_estetica", Str("")),
    ("tom_manual_input", Str("")), ("influencia_estetica_manual_input", Str("")),
    ("vocal_masculino", Str("")), ("vocal_feminino", Str(""))
  ]

  /** `STATE_DEFAULTS.keys()`. */
  function DefaultKeys(): seq<string> {
    seq(|StateDefaults|, i requires 0 <= i < |StateDefaults| => StateDefaults[i].0)
  }

  // ---------------------------------------------------------------------------
  // Dependent fields: genre -> rhythm -> structure
  // ---------------------------------------------------------------------------

  /** `on_genero_change`: a new genre forgets the rhythm. */
  method OnGeneroChange(s: SessionState)
    modifies s
    ensures s.state == old(s.state)["ritmo" := Str("")]
  {
    s.state := s.state["ritmo" := Str("")];
  }

  /**
   * What `on_ritmo_change` may rely on: both fields exist, and when both are
   * set they are strings and the hierarchy is loaded with paired items for
   * the genre (otherwise the lookups raise).
   */
  predicate RitmoChangeReady(m: State, core: CoreData) {
    && "genero" in m && "ritmo" in m
    && (Truthy(m["genero"]) && Truthy(m["ritmo"]) ==>
          && m["genero"].Str? && m["ritmo"].Str?
          && core.hierarquia.Some?
          && RhythmsPaired(HierarchyOf(core), m["genero"].s))
  }

  /** The structure `on_ritmo_change` suggests for the chosen genre and rhythm, `""` for none. */
  function RitmoSuggestion(m: State, core: CoreData): string
    requires RitmoChangeReady(m, core)
  {
    if Truthy(m["genero"]) && Truthy(m["ritmo"]) then SuggestedStructure(m["genero"].s, m["ritmo"].s, core) else ""
  }

  /**
   * `on_ritmo_change`: a rhythm with a suggested structure fills both
   * structure fields with it; otherwise nothing changes.
   */
  method OnRitmoChange(s: SessionState, core: CoreData)
    requires RitmoChangeReady(s.state, core)
    modifies s
    ensures var sug := RitmoSuggestion(old(s.state), core);
      s.state == if sug == "" then old(s.state) else old(s.state)["estrutura_sel" := Str(sug)]["estrutura" := Str(sug)]
  {
    var g, r := s.state["genero"], s.state["ritmo"];
    if Truthy(g) && Truthy(r) {
      var mapa := GetStructureMap(g.s, core);
      var sugestao := if r.s in mapa then mapa[r.s] else "";
      if sugestao != "" {
        s.state := s.state["estrutura_sel" := Str(sugestao)]["estrutura" := Str(sugestao)];
      }
    }
  }

  /** `on_estrutura_sel_change`: a chosen structure is copied into the editable field. */
  method OnEstruturaSelChange(s: SessionState)
    requires "estrutura_sel" in s.state
    modifies s
    ensures s.state == if Truthy(old(s.state)["estrutura_sel"])
      then old(s.state)["estrutura" := old(s.state)["estrutura_sel"]] else old(s.state)
  {
    if Truthy(s.state["estrutura_sel"]) {
      s.state := s.state["estrutura" := s.state["estrutura_sel"]];
    }
  }

  // ---------------------------------------------------------------------------
  // clear_all
  // ---------------------------------------------------------------------------

  /** `clear_all`: defaults reset (history kept), pickers cleared, prompt hidden, new-vibe input blanked. */
  method ClearAll(s: SessionState)
    modifies s
    ensures s.state == ClearAllState(old(s.state), DefaultKeys(), HierKeys, true)
  {
    var keys := DefaultKeys();
    var i := 0;
    while i < |keys|
      invariant 0 <= i <= |keys|
      invariant s.state == ClearDefaults(old(s.state), keys[..i])
    {
      assert keys[..i + 1][..i] == keys[..i];
      var k := keys[i];
      if k != HistoryKey {
        if k == VibeKey {
          s.state := s.state[k := Lst([])];
        } else {
          s.state := s.state[k := Str("")];
        }
      }
      i := i + 1;
    }
    assert keys[..i] == keys;
    ghost var cleared := s.state;
    var j := 0;
    while j < |HierKeys|
      invariant 0 <= j <= |HierKeys|
      invariant s.state == ClearTriples(cleared, HierKeys[..j])
    {
      assert HierKeys[..j + 1][..j] == HierKeys[..j];
      var k := HierKeys[j];
      s.state := s.state[CatKey(k) := Str("")][SelKey(k) := Str("")][k := Str("")];
      j := j + 1;
    }
    assert HierKeys[..j] == HierKeys;
    s.state := s.state[ShowPromptKey := Bool(false)];
    if NewVibeInputKey in s.state {
      s.state := s.state[NewVibeInputKey := Str("")];
    }
  }

  /** No hierarchical key or its `_cat`/`_sel` companion is `history` or `show_prompt`. */
  lemma HierKeysApart()
    ensures !InTriple(HierKeys, HistoryKey) && !InTriple(HierKeys, ShowPromptKey) && !InTriple(HierKeys, VibeKey)
  {
    forall k | k in HierKeys
      ensures HistoryKey != CatKey(k) && HistoryKey != SelKey(k) && HistoryKey != k
      ensures ShowPromptKey != CatKey(k) && ShowPromptKey != SelKey(k) && ShowPromptKey != k
      ensures VibeKey != CatKey(k) && VibeKey != SelKey(k) && VibeKey != k
    {
      assert |HistoryKey| == 7 && |ShowPromptKey| == 11;
      assert k == "publico" || k == "tipo_de_gravacao" || k == "narrador";
      assert HistoryKey[0] != k[0] && ShowPromptKey[0] != k[0] && VibeKey[0] != k[0];
      assert CatKey(k)[0] == k[0] && SelKey(k)[0] == k[0];
    }
  }

  /** The defaults name the history, the prompt flag, the vibe list, the new-vibe input and the manual tone input. */
  lemma DefaultKeysListed()
    ensures HistoryKey in DefaultKeys() && ShowPromptKey in DefaultKeys()
    ensures VibeKey in DefaultKeys() && NewVibeInputKey in DefaultKeys()
    ensures "tom_manual_input" in DefaultKeys()
    ensures HistoryKey !in HierKeys && ShowPromptKey !in HierKeys && VibeKey !in HierKeys
  {
    var keys := DefaultKeys();
    assert keys[15] == HistoryKey && keys[12] == ShowPromptKey && keys[7] == VibeKey && keys[16] == NewVibeInputKey;
    assert keys[19] == "tom_manual_input";
  }

  /** After `clear_all` the history is intact, the prompt hidden and the vibe list empty. */
  lemma ClearAllKeepsHistory(m: State)
    ensures var r := ClearAllState(m, DefaultKeys(), HierKeys, true);
      && (HistoryKey in r <==> HistoryKey in m)
      && (HistoryKey in m ==> r[HistoryKey] == m[HistoryKey])
      && r[ShowPromptKey] == Bool(false)
      && VibeKey in r && r[VibeKey] == Lst([])
  {
    DefaultKeysListed();
    HierKeysApart();
    ClearAllUntouched(m, DefaultKeys(), HierKeys, true, HistoryKey);
    ClearAllResets(m, DefaultKeys(), HierKeys, true, VibeKey);
  }

  /** This `clear_all` leaves the new-vibe input box empty. */
  lemma ClearAllEmptiesVibeInput(m: State)
    ensures var r := ClearAllState(m, DefaultKeys(), HierKeys, true);
      NewVibeInputKey in r && r[NewVibeInputKey] == Str("")
  {
    DefaultKeysListed();
    ClearAllBlanksVibeInput(m, DefaultKeys(), HierKeys);
  }

  /** Unlike the refactored version, this `clear_all` blanks the manual tone input. */
  lemma ClearAllBlanksManualTone(m: State)
    ensures var r := ClearAllState(m, DefaultKeys(), HierKeys, true);
      "tom_manual_input" in r && r["tom_manual_input"] == Str("")
  {
    DefaultKeysListed();
    ClearAllBlanks(m);
  }

  /** After `clear_all` every hierarchical triple and every default but the history, the flag and the list is `""`. */
  lemma ClearAllBlanks(m: State)
    ensures var r := ClearAllState(m, DefaultKeys(), HierKeys, true);
      && (forall x :: InTriple(HierKeys, x) ==> x in r && r[x] == Str(""))
      && (forall k :: k in DefaultKeys() && k != HistoryKey && k != ShowPromptKey && k != VibeKey ==>
            k in r && r[k] == Str(""))
  {
    DefaultKeysListed();
    HierKeysApart();
    ClearAllSpec(m, DefaultKeys(), HierKeys, true);
  }

  // ---------------------------------------------------------------------------
  // Randomisers
  // ---------------------------------------------------------------------------

  /** `randomize_hier_callback(key, data)`: a random non-empty category and one of its items. */
  method RandomizeHier(s: SessionState, key: string, data: Catalog<string>, pickCat: nat, pickItem: nat)
    requires HierOracle(data, pickCat, pickItem)
    modifies s
    ensures s.state == HierUpdate(old(s.state), key, data, pickCat, pickItem)
  {
    var cats := NonEmptyCats(data);
    if cats != [] {
      var c := data[cats[pickCat]].name;
      var v := data[cats[pickCat]].items[pickItem];
      s.state := s.state[CatKey(key) := Str(c)][SelKey(key) := Str(v)][key := Str(v)];
    }
  }

  /**
   * `randomize_tags_callback(key, data)`: between one and four sampled
   * categories, one item name each, stored comma-separated; an empty catalog
   * changes nothing.
   */
  method RandomizeTags(s: SessionState, key: string, data: Catalog<Entry>, sample: seq<nat>, picks: seq<nat>)
    requires TagOracle(data, sample, picks)
    modifies s
    ensures s.state == if data == [] then old(s.state)
      else old(s.state)[key := Str(Join(TagPicks(data, sample, picks), ", "))]
  {
    if data != [] {
      var selecaoFinal := DrawTags(data, sample, picks);
      s.state := s.state[key := Str(Join(selecaoFinal, ", "))];
    }
  }

  /**
   * `random_vibe_generator`: the vibe list is emptied and refilled with three
   * to five draws from the loaded vibe catalog.
   */
  method RandomVibeGenerator(s: SessionState, core: CoreData, catPicks: seq<nat>, itemPicks: seq<nat>)
    requires VibeKey in core.catalogs
    requires VibeOracle(core.catalogs[VibeKey], catPicks, itemPicks)
    modifies s
    ensures s.state == old(s.state)[VibeKey := Lst(VibeResult(core.catalogs[VibeKey], catPicks, itemPicks))]
  {
    var vibeData := core.catalogs[VibeKey];
    s.state := s.state[VibeKey := Lst([])];
    var vibes := DrawVibes(vibeData, catPicks, itemPicks);
    s.state := s.state[VibeKey := Lst(vibes)];
  }

  // ---------------------------------------------------------------------------
  // Vibe list and structure edits
  // ---------------------------------------------------------------------------

  /** The vibe list, or `[]` where the session has none yet. */
  function VibesOf(m: State): seq<string>
    requires VibeKey in m ==> m[VibeKey].Lst?
  {
    if VibeKey in m then m[VibeKey].items else []
  }

  /** `add_vibe_click`: the vibe is appended unless present (the list is created if missing). */
  method AddVibeClick(s: SessionState, vibeNome: string)
    requires VibeKey in s.state ==> s.state[VibeKey].Lst?
    modifies s
    ensures s.state == old(s.state)[VibeKey := Lst(AppendAbsent(VibesOf(old(s.state)), vibeNome))]
  {
    if VibeKey !in s.state {
      s.state := s.state[VibeKey := Lst([])];
    }
    var vibes := s.state[VibeKey].items;
    if vibeNome !in vibes {
      s.state := s.state[VibeKey := Lst(vibes + [vibeNome])];
    }
  }

  /** `pop(index)` can only fail below `-len`: such an index is the caller's error. */
  predicate DeleteIndexOk(m: State, index: int)
    requires HoldsList(m, VibeKey)
  {
    |m[VibeKey].items| > index ==> index >= -|m[VibeKey].items|
  }

  /** `delete_vibe(index)`: the vibe at `index` (negative from the end) is removed when the list is long enough. */
  method DeleteVibe(s: SessionState, index: int)
    requires HoldsList(s.state, VibeKey) && DeleteIndexOk(s.state, index)
    modifies s
    ensures var vibes := old(s.state)[VibeKey].items;
      s.state == if |vibes| > index then old(s.state)[VibeKey := Lst(RemoveAt(vibes, PyIndex(|vibes|, index)))]
        else old(s.state)
  {
    var vibes := s.state[VibeKey].items;
    if |vibes| > index {
      s.state := s.state[VibeKey := Lst(RemoveAt(vibes, PyIndex(|vibes|, index)))];
    }
  }

  /** `st.session_state.get("new_vibe_input", "").strip()`. */
  function TypedVibe(m: State): string
    requires NewVibeInputKey in m ==> m[NewVibeInputKey].Str?
  {
    Strip(if NewVibeInputKey in m then m[NewVibeInputKey].s else "")
  }

  /**
   * `submit_manual_vibe`: a typed vibe, stripped, is appended unless blank or
   * present. This version leaves the input box as it was.
   */
  method SubmitManualVibe(s: SessionState)
    requires NewVibeInputKey in s.state ==> s.state[NewVibeInputKey].Str?
    requires TypedVibe(s.state) != "" ==> HoldsList(s.state, VibeKey)
    modifies s
    ensures var val := TypedVibe(old(s.state));
      s.state == if val == "" then old(s.state)
        else old(s.state)[VibeKey := Lst(AppendAbsent(old(s.state)[VibeKey].items, val))]
  {
    var val := Strip(if NewVibeInputKey in s.state then s.state[NewVibeInputKey].s else "");
    if val != "" {
      var vibes := s.state[VibeKey].items;
      if val !in vibes {
        s.state := s.state[VibeKey := Lst(vibes + [val])];
      }
    }
  }

  /** `add_tag_to_structure(tag)`: the tag is appended to the structure line, space-separated. */
  method AddTagToStructure(s: SessionState, tag: string)
    requires HoldsStr(s.state, "estrutura")
    modifies s
    ensures s.state == old(s.state)["estrutura" := Str(AppendTag(old(s.state)["estrutura"].s, tag))]
  {
    var cur := s.state["estrutura"].s;
    s.state := s.state["estrutura" := Str(if cur != "" then cur + " " + tag else tag)];
  }

  // ---------------------------------------------------------------------------
  // Tag pickers
  // ---------------------------------------------------------------------------

  /** `handle_tag_selection(key, data)`: only the latest item of each known category survives. */
  method HandleTagSelection(s: SessionState, key: string, data: Catalog<Entry>)
    requires HoldsList(s.state, key)
    modifies s
    ensures s.state == old(s.state)[key := Lst(Normalized(old(s.state)[key].items, data))]
  {
    var finalList := NormalizeSelection(s.state[key].items, data);
    s.state := s.state[key := Lst(finalList)];
  }

  /**
   * What `update_categorized_selection` may rely on: `order` is the session's
   * key order (each key once), the section's selectboxes hold options, and
   * the manual input, if any, is a string.
   */
  ghost predicate CategorizedReady(m: State, mainKey: string, manualKey: string, order: seq<string>) {
    && Distinct(order) && (forall k :: k in order <==> k in m)
    && PickersWellFormed(m, CatPrefix(mainKey))
    && (manualKey in m ==> m[manualKey].Str?)
  }

  /**
   * `update_categorized_selection(main_key, sub_key, manual_key)`: the main
   * list becomes the chosen selectbox names, in key order, plus the stripped
   * manual input when it is not blank.
   */
  method UpdateCategorizedSelection(s: SessionState, mainKey: string, subKey: string, manualKey: string, order: seq<string>)
    requires CategorizedReady(s.state, mainKey, manualKey, order)
    modifies s
    ensures s.state == old(s.state)[mainKey := Lst(CategorizedList(old(s.state), mainKey, manualKey, order))]
  {
    var finalList := [];
    var prefix := CatPrefix(mainKey);
    var i := 0;
    while i < |order|
      invariant 0 <= i <= |order|
      invariant finalList == CategorizedPicks(s.state, order[..i], prefix)
    {
      assert order[..i + 1][..i] == order[..i];
      var key := order[i];
      var value := s.state[key];
      if HasPrefix(key, prefix) && Truthy(value) {
        if value.Lst? {
          finalList := finalList + [value.items[0]];
        } else {
          finalList := finalList + [value.s];
        }
      }
      i := i + 1;
    }
    assert order[..i] == order;
    var manualVal := Strip(if manualKey in s.state then s.state[manualKey].s else "");
    if manualVal != "" {
      finalList := finalList + [manualVal];
    }
    s.state := s.state[mainKey := Lst(finalList)];
  }

  /**
   * `clear_categorized_callback(main_key, prefix)`: manual input blanked,
   * every selectbox with the prefix reset to nothing, the main list emptied.
   */
  method ClearCategorizedCallback(s: SessionState, mainKey: string, prefix: string)
    modifies s
    ensures s.state == ClearedCategorized(old(s.state), mainKey, prefix)
  {
    var manualKey := ManualKey(mainKey);
    if manualKey in s.state {
      s.state := s.state[manualKey := Str("")];
    }
    ghost var blanked := s.state;
    var pending := s.state.Keys;
    while pending != {}
      invariant pending <= blanked.Keys && s.state.Keys == blanked.Keys
      invariant forall k :: k in blanked ==>
        s.state[k] == if k !in pending && HasPrefix(k, prefix) then NoneVal else blanked[k]
      decreases pending
    {
      var key :| key in pending;
      if HasPrefix(key, prefix) {
        s.state := s.state[key := NoneVal];
      }
      pending := pending - {key};
    }
    s.state := s.state[mainKey := Lst([])];
  }

  // ---------------------------------------------------------------------------
  // callback_restaurar
  // ---------------------------------------------------------------------------

  /** Writing a key after merging is merging the written dictionary. */
  lemma MergeUpdate(m: State, a: map<string, Value>, k: string, v: Value)
    ensures (m + a)[k := v] == m + a[k := v]
  {
  }

  /** The label loop of `callback_restaurar`: each row found in the section writes its field. */
  method WriteRows(s: SessionState, section: string, rows: seq<LabelRow>)
    modifies s
    ensures s.state == old(s.state) + Assemble(rows, Found(section, rows))
  {
    var i := 0;
    while i < |rows|
      invariant 0 <= i <= |rows|
      invariant s.state == old(s.state) + Assemble(rows[..i], Found(section, rows)[..i])
    {
      var row := rows[i];
      AssembleStep(section, rows, i);
      var match_ := Search(section, row.promptKey);
      if match_.Some? {
        var v := Restored(row.field, match_.value);
        MergeUpdate(old(s.state), Assemble(rows[..i], Found(section, rows)[..i]), row.field, v);
        s.state := s.state[row.field := v];
      }
      i := i + 1;
    }
    assert rows[..i] == rows && Found(section, rows)[..i] == Found(section, rows);
  }

  /**
   * `callback_restaurar(texto_prompt)`: every label found in the user section
   * writes its field, the pickers' `_cat`/`_sel` keys are blanked, the prompt
   * is hidden.
   */
  method CallbackRestaurar(s: SessionState, textoPrompt: string)
    modifies s
    ensures s.state == RestoredState(old(s.state), Restore(textoPrompt), HierKeys)
  {
    var textoUsuario := UserSection(textoPrompt);
    WriteRows(s, textoUsuario, LabelTable);
    ghost var restored := s.state;
    var j := 0;
    while j < |HierKeys|
      invariant 0 <= j <= |HierKeys|
      invariant s.state == ClearCatSel(restored, HierKeys[..j])
    {
      assert HierKeys[..j + 1][..j] == HierKeys[..j];
      s.state := s.state[CatKey(HierKeys[j]) := Str("")][SelKey(HierKeys[j]) := Str("")];
      j := j + 1;
    }
    assert HierKeys[..j] == HierKeys;
    s.state := s.state[ShowPromptKey := Bool(false)];
  }
}
