/**
 * The callbacks of the refactored application (app/callbacks.py). They share
 * the keys and defaults of the configuration module and read the loaded data
 * through `.get` with empty defaults. Callbacks identical to those of the
 * single-file version are used from there.
 */
module Callbacks {
  import opened Options
  import opened Text
  import opened Session
  import opened Catalogs
  import opened Config
  import opened Logic
  import opened Edits
  import opened Sampling
  import opened StateOps
  import StateCallbacks

  /** `STATE_DEFAULTS.keys()` of the configuration. */
  function DefaultKeys(): seq<string> {
    seq(|StateDefaults|, i requires 0 <= i < |StateDefaults| => StateDefaults[i].0)
  }

  // ---------------------------------------------------------------------------
  // Dependent fields
  // ---------------------------------------------------------------------------

  /**
   * What `on_ritmo_change` may rely on here: both fields exist, and when both
   * are set they are strings whose genre, if listed, has paired items. A
   * missing hierarchy reads as empty.
   */
  predicate RitmoChangeReady(m: State, core: CoreData) {
    && "genero" in m && "ritmo" in m
    && (Truthy(m["genero"]) && Truthy(m["ritmo"]) ==>
          m["genero"].Str? && m["ritmo"].Str? && RhythmsPaired(HierarchyOf(core), m["genero"].s))
  }

  /** The structure suggested for the chosen genre and rhythm, `""` for none. */
  function RitmoSuggestion(m: State, core: CoreData): string
    requires RitmoChangeReady(m, core)
  {
    if Truthy(m["genero"]) && Truthy(m["ritmo"]) then SuggestedStructure(m["genero"].s, m["ritmo"].s, core) else ""
  }

  /** `on_ritmo_change(core_data)`: a suggested structure fills both structure fields. */
  method OnRitmoChange(s: SessionState, core: CoreData)
    requires RitmoChangeReady(s.state, core)
    modifies s
    ensures var sug := RitmoSuggestion(old(s.state), core);
      s.state == if sug == "" then old(s.state) else old(s.state)["estrutura_sel" := Str(sug)]["estrutura" := Str(sug)]
  {
    var g, r := s.state["genero"], s.state["ritmo"];
    if Truthy(g) && Truthy(r) {
      var mapa := GetStructureMap(g.s, core);
      var sugestao := if r.s in mapa then mapa[r.s] else "";
      if sugestao != "" {
        s.state := s.state["estrutura_sel" := Str(sugestao)]["estrutura" := Str(sugestao)];
      }
    }
  }

  /**
   * Without a loaded hierarchy no rhythm suggests anything; with one, the
   * suggestion is the structure of the rhythm's last item in the genre.
   */
  lemma NoHierarchyNoSuggestion(m: State, core: CoreData)
    requires RitmoChangeReady(m, core)
    ensures core.hierarquia.None? ==> RitmoSuggestion(m, core) == ""
    ensures RitmoSuggestion(m, core) != "" ==>
      && m["genero"].s in HierarchyOf(core)
      && m["ritmo"].s in GetRitmosList(m["genero"].s, core)
  {
  }

  // ---------------------------------------------------------------------------
  // clear_all / clear_hier_callback
  // ---------------------------------------------------------------------------

  /** `clear_all`: defaults reset (history kept), every hierarchical triple cleared, prompt hidden. */
  method ClearAll(s: SessionState)
    modifies s
    ensures s.state == ClearAllState(old(s.state), DefaultKeys(), HierKeys, false)
  {
    var keys := DefaultKeys();
    var i := 0;
    while i < |keys|
      invariant 0 <= i <= |keys|
      invariant s.state == ClearDefaults(old(s.state), keys[..i])
    {
      assert keys[..i + 1][..i] == keys[..i];
      var k := keys[i];
      if k != HistoryKey {
        s.state := s.state[k := if k == VibeKey then Lst([]) else Str("")];
      }
      i := i + 1;
    }
    assert keys[..i] == keys;
    ghost var cleared := s.state;
    var j := 0;
    while j < |HierKeys|
      invariant 0 <= j <= |HierKeys|
      invariant s.state == ClearTriples(cleared, HierKeys[..j])
    {
      assert HierKeys[..j + 1][..j] == HierKeys[..j];
      var k := HierKeys[j];
      s.state := s.state[CatKey(k) := Str("")][SelKey(k) := Str("")][k := Str("")];
      j := j + 1;
    }
    assert HierKeys[..j] == HierKeys;
    s.state := s.state[ShowPromptKey := Bool(false)];
  }

  /** No hierarchical key or its `_cat`/`_sel` companion is `history` or `show_prompt`. */
  lemma HierKeysApart()
    ensures !InTriple(HierKeys, HistoryKey) && !InTriple(HierKeys, ShowPromptKey) && !InTriple(HierKeys, VibeKey)
  {
    forall k | k in HierKeys
      ensures HistoryKey != CatKey(k) && HistoryKey != SelKey(k) && HistoryKey != k
      ensures ShowPromptKey != CatKey(k) && ShowPromptKey != SelKey(k) && ShowPromptKey != k
      ensures VibeKey != CatKey(k) && VibeKey != SelKey(k) && VibeKey != k
    {
      assert k == "publico" || k == "tom" || k == "tipo_de_gravacao" || k == "influencia_estetica" || k == "narrador";
      assert HistoryKey[0] != k[0] && ShowPromptKey[0] != k[0] && VibeKey[0] != k[0];
      assert CatKey(k)[0] == k[0] && SelKey(k)[0] == k[0];
    }
  }

  /** The defaults name the history, the prompt flag, the vibe list and the new-vibe input. */
  lemma DefaultKeysListed()
    ensures HistoryKey in DefaultKeys() && ShowPromptKey in DefaultKeys()
    ensures VibeKey in DefaultKeys() && NewVibeInputKey in DefaultKeys()
    ensures HistoryKey !in HierKeys && ShowPromptKey !in HierKeys && VibeKey !in HierKeys
  {
    var keys := DefaultKeys();
    assert keys[15] == HistoryKey && keys[12] == ShowPromptKey && keys[7] == VibeKey && keys[16] == NewVibeInputKey;
  }

  /** After `clear_all` the history is intact, the prompt hidden and the vibe list empty. */
  lemma ClearAllKeepsHistory(m: State)
    ensures var r := ClearAllState(m, DefaultKeys(), HierKeys, false);
      && (HistoryKey in r <==> HistoryKey in m)
      && (HistoryKey in m ==> r[HistoryKey] == m[HistoryKey])
      && r[ShowPromptKey] == Bool(false)
      && VibeKey in r && r[VibeKey] == Lst([])
  {
    DefaultKeysListed();
    HierKeysApart();
    ClearAllUntouched(m, DefaultKeys(), HierKeys, false, HistoryKey);
    ClearAllResets(m, DefaultKeys(), HierKeys, false, VibeKey);
  }

  /** After `clear_all` every hierarchical triple and every default but the history, the flag and the list is `""`. */
  lemma ClearAllBlanks(m: State)
    ensures var r := ClearAllState(m, DefaultKeys(), HierKeys, false);
      && (forall x :: InTriple(HierKeys, x) ==> x in r && r[x] == Str(""))
      && (forall k :: k in DefaultKeys() && k != HistoryKey && k != ShowPromptKey && k != VibeKey ==>
            k in r && r[k] == Str(""))
  {
    DefaultKeysListed();
    HierKeysApart();
    ClearAllSpec(m, DefaultKeys(), HierKeys, false);
  }

  /** Unlike the single-file version, this `clear_all` leaves the manual tone input as it was. */
  lemma ClearAllKeepsManualTone(m: State)
    requires "tom_manual_input" in m
    ensures var r := ClearAllState(m, DefaultKeys(), HierKeys, false);
      "tom_manual_input" in r && r["tom_manual_input"] == m["tom_manual_input"]
  {
    ManualToneApart();
    ClearAllUntouched(m, DefaultKeys(), HierKeys, false, "tom_manual_input");
  }

  /** `tom_manual_input` is neither a default key nor in a hierarchical triple. */
  lemma ManualToneApart()
    ensures "tom_manual_input" !in DefaultKeys() && !InTriple(HierKeys, "tom_manual_input")
  {
    var x := "tom_manual_input";
    var keys := DefaultKeys();
    forall i | 0 <= i < |keys| ensures keys[i] != x {
      assert |keys[i]| < |x|;
    }
    forall k | k in HierKeys ensures x != CatKey(k) && x != SelKey(k) && x != k {
      assert k == "publico" || k == "tom" || k == "tipo_de_gravacao" || k == "influencia_estetica" || k == "narrador";
      assert |CatKey(k)| == |k| + 4 && |SelKey(k)| == |k| + 4;
    }
  }

  /** `clear_hier_callback(key)`: the field and its `_cat`/`_sel` companions become `""`. */
  method ClearHierCallback(s: SessionState, key: string)
    modifies s
    ensures s.state == ClearTriples(old(s.state), [key])
  {
    s.state := s.state[CatKey(key) := Str("")][SelKey(key) := Str("")][key := Str("")];
  }

  /** Clearing one field touches exactly its triple. */
  lemma ClearHierOnly(m: State, key: string)
    ensures var r := ClearTriples(m, [key]);
      && r[key] == Str("") && r[CatKey(key)] == Str("") && r[SelKey(key)] == Str("")
      && forall x :: x in m && x != key && x != CatKey(key) && x != SelKey(key) ==> x in r && r[x] == m[x]
  {
    ClearTriplesSpec(m, [key]);
    assert forall x :: InTriple([key], x) <==> x == CatKey(key) || x == SelKey(key) || x == key;
  }

  // ---------------------------------------------------------------------------
  // Randomisers
  // ---------------------------------------------------------------------------

  /**
   * `random_vibe_generator(core_data)`: the vibe list is emptied and refilled
   * from the vibe catalog, which reads as empty when missing.
   */
  method RandomVibeGenerator(s: SessionState, core: CoreData, catPicks: seq<nat>, itemPicks: seq<nat>)
    requires VibeOracle(CatalogOf(core, VibeKey), catPicks, itemPicks)
    modifies s
    ensures s.state == old(s.state)[VibeKey := Lst(VibeResult(CatalogOf(core, VibeKey), catPicks, itemPicks))]
  {
    var vibeData := CatalogOf(core, VibeKey);
    s.state := s.state[VibeKey := Lst([])];
    var vibes := DrawVibes(vibeData, catPicks, itemPicks);
    s.state := s.state[VibeKey := Lst(vibes)];
  }

  /** Without a vibe catalog the generator leaves the list empty. */
  lemma NoVibeCatalogEmpties(core: CoreData, catPicks: seq<nat>, itemPicks: seq<nat>)
    requires VibeKey !in core.catalogs
    ensures VibeOracle(CatalogOf(core, VibeKey), catPicks, itemPicks)
    ensures VibeResult(CatalogOf(core, VibeKey), catPicks, itemPicks) == []
  {
    assert CatalogOf(core, VibeKey) == [];
    VibeResultSpec(CatalogOf(core, VibeKey), catPicks, itemPicks);
  }

  /** Some item of the hierarchy carries a structure. */
  ghost predicate AnyStructure(core: CoreData) {
    exists x :: ListedStructure(HierarchyOf(core), x)
  }

  /** The draw is legal: one of the hierarchy's structures, when there is one. */
  ghost predicate StructChoiceOk(core: CoreData, choice: string) {
    AnyStructure(core) ==> ListedStructure(HierarchyOf(core), choice)
  }

  /**
   * `randomize_struct_callback(core_data)`: a structure drawn from all the
   * hierarchy's structures fills both structure fields; none, no change.
   */
  method RandomizeStructCallback(s: SessionState, core: CoreData, choice: string)
    requires StructChoiceOk(core, choice)
    modifies s
    ensures s.state == if AnyStructure(core)
      then old(s.state)["estrutura_sel" := Str(choice)]["estrutura" := Str(choice)] else old(s.state)
  {
    var structs := GetAllUniqueStructures(core);
    if structs != [] {
      assert ListedStructure(HierarchyOf(core), structs[0]);
      s.state := s.state["estrutura_sel" := Str(choice)]["estrutura" := Str(choice)];
    } else {
      assert !AnyStructure(core);
    }
  }

  /** The genre and rhythm draws are legal: a listed genre, then one of its items, which is paired. */
  predicate GenreOracle(h: Hierarchy, genre: string, pickRhythm: nat) {
    h != map[] ==> genre in h && (h[genre] != [] ==> pickRhythm < |h[genre]| && |h[genre][pickRhythm]| >= 2)
  }

  /** Step 1 of `random_all`: genre, and when it has items, rhythm and both structure fields. */
  function GenreUpdate(m: State, h: Hierarchy, genre: string, pickRhythm: nat): State
    requires GenreOracle(h, genre, pickRhythm)
  {
    if h == map[] then m
    else
      var m1 := m["genero" := Str(genre)];
      if h[genre] == [] then m1
      else
        var escolhido := h[genre][pickRhythm];
        m1["ritmo" := Str(escolhido[0])]["estrutura" := Str(escolhido[1])]["estrutura_sel" := Str(escolhido[1])]
  }

  /** `core_data.get(k, {})` for each listed key. */
  function CatalogsOf(core: CoreData, keys: seq<string>): (r: seq<Catalog<string>>)
    ensures |r| == |keys| && forall i :: 0 <= i < |keys| ==> r[i] == CatalogOf(core, keys[i])
  {
    seq(|keys|, i requires 0 <= i < |keys| => CatalogOf(core, keys[i]))
  }

  /** Every draw `random_all` makes is legal. */
  predicate RandomAllOracle(core: CoreData, genre: string, pickRhythm: nat, hierPicks: seq<(nat, nat)>,
                            catPicks: seq<nat>, itemPicks: seq<nat>) {
    && GenreOracle(HierarchyOf(core), genre, pickRhythm)
    && HierPicksValid(HierKeys, CatalogsOf(core, HierKeys), hierPicks)
    && VibeOracle(CatalogOf(core, VibeKey), catPicks, itemPicks)
  }

  /** The state `random_all` leaves: genre step, each hierarchical field, then the vibes. */
  function RandomAllState(m: State, core: CoreData, genre: string, pickRhythm: nat, hierPicks: seq<(nat, nat)>,
                          catPicks: seq<nat>, itemPicks: seq<nat>): State
    requires RandomAllOracle(core, genre, pickRhythm, hierPicks, catPicks, itemPicks)
  {
    var m1 := GenreUpdate(m, HierarchyOf(core), genre, pickRhythm);
    var m2 := HierUpdates(m1, HierKeys, CatalogsOf(core, HierKeys), hierPicks);
    m2[VibeKey := Lst(VibeResult(CatalogOf(core, VibeKey), catPicks, itemPicks))]
  }

  /** `random_all(core_data)`: genre, rhythm and structure, every hierarchical field, then the vibes. */
  method RandomAll(s: SessionState, core: CoreData, genre: string, pickRhythm: nat, hierPicks: seq<(nat, nat)>,
                   catPicks: seq<nat>, itemPicks: seq<nat>)
    requires RandomAllOracle(core, genre, pickRhythm, hierPicks, catPicks, itemPicks)
    modifies s
    ensures s.state == RandomAllState(old(s.state), core, genre, pickRhythm, hierPicks, catPicks, itemPicks)
  {
    PickGenre(s, HierarchyOf(core), genre, pickRhythm);
    RandomizeEach(s, HierKeys, CatalogsOf(core, HierKeys), hierPicks);
    RandomVibeGenerator(s, core, catPicks, itemPicks);
  }

  /** Step 1 of `random_all`. */
  method PickGenre(s: SessionState, hierarquia: Hierarchy, genre: string, pickRhythm: nat)
    requires GenreOracle(hierarquia, genre, pickRhythm)
    modifies s
    ensures s.state == GenreUpdate(old(s.state), hierarquia, genre, pickRhythm)
  {
    if hierarquia != map[] {
      s.state := s.state["genero" := Str(genre)];
      var itensRitmo := hierarquia[genre];
      if itensRitmo != [] {
        var escolhido := itensRitmo[pickRhythm];
        s.state := s.state["ritmo" := Str(escolhido[0])]["estrutura" := Str(escolhido[1])]["estrutura_sel" := Str(escolhido[1])];
      }
    }
  }

  /** The loop of `random_all` over the hierarchical fields, each with its own catalog. */
  method RandomizeEach(s: SessionState, keys: seq<string>, catalogs: seq<Catalog<string>>, picks: seq<(nat, nat)>)
    requires HierPicksValid(keys, catalogs, picks)
    modifies s
    ensures s.state == HierUpdates(old(s.state), keys, catalogs, picks)
  {
    var k := 0;
    while k < |keys|
      invariant 0 <= k <= |keys|
      invariant HierPicksValid(keys[..k], catalogs[..k], picks[..k])
      invariant s.state == HierUpdates(old(s.state), keys[..k], catalogs[..k], picks[..k])
    {
      assert keys[..k + 1][..k] == keys[..k];
      assert catalogs[..k + 1][..k] == catalogs[..k] && picks[..k + 1][..k] == picks[..k];
      assert HierPicksValid(keys[..k + 1], catalogs[..k + 1], picks[..k + 1]) by {
        assert forall j :: 0 <= j <= k ==> catalogs[..k + 1][j] == catalogs[j] && picks[..k + 1][j] == picks[j];
      }
      StateCallbacks.RandomizeHier(s, keys[k], catalogs[k], picks[k].0, picks[k].1);
      k := k + 1;
    }
    assert keys[..k] == keys && catalogs[..k] == catalogs && picks[..k] == picks;
  }

  /** The genre-step fields are no hierarchical field nor a `_cat`/`_sel` companion. */
  lemma GenreFieldsApart(x: string)
    requires x == "genero" || x == "ritmo" || x == "estrutura" || x == "estrutura_sel"
    ensures !InTriple(HierKeys, x) && x != VibeKey
  {
    forall k | k in HierKeys ensures x != CatKey(k) && x != SelKey(k) && x != k {
      assert k == "publico" || k == "tom" || k == "tipo_de_gravacao" || k == "influencia_estetica" || k == "narrador";
      assert x[0] != k[0];
      assert CatKey(k)[0] == k[0] && SelKey(k)[0] == k[0];
    }
  }

  /**
   * After `random_all` the genre is a listed genre (when any is listed), and
   * when that genre has rhythm items the rhythm and both structure fields
   * come from one of its items, the two structure fields agreeing.
   */
  lemma RandomAllConsistent(m: State, core: CoreData, genre: string, pickRhythm: nat, hierPicks: seq<(nat, nat)>,
                            catPicks: seq<nat>, itemPicks: seq<nat>)
    requires RandomAllOracle(core, genre, pickRhythm, hierPicks, catPicks, itemPicks)
    ensures var h := HierarchyOf(core);
      var r := RandomAllState(m, core, genre, pickRhythm, hierPicks, catPicks, itemPicks);
      && (h != map[] ==> genre in h && "genero" in r && r["genero"] == Str(genre))
      && (h != map[] && h[genre] != [] ==>
            && "ritmo" in r && "estrutura" in r && "estrutura_sel" in r
            && r["estrutura"] == r["estrutura_sel"]
            && exists item :: item in h[genre] && |item| >= 2 &&
                 r["ritmo"] == Str(item[0]) && r["estrutura"] == Str(item[1]))
      && VibeKey in r && r[VibeKey] == Lst(VibeResult(CatalogOf(core, VibeKey), catPicks, itemPicks))
  {
    var h := HierarchyOf(core);
    var m1 := GenreUpdate(m, h, genre, pickRhythm);
    var catalogs := CatalogsOf(core, HierKeys);
    GenreFieldsApart("genero");
    GenreFieldsApart("ritmo");
    GenreFieldsApart("estrutura");
    GenreFieldsApart("estrutura_sel");
    HierUpdatesFrame(m1, HierKeys, catalogs, hierPicks, "genero");
    HierUpdatesFrame(m1, HierKeys, catalogs, hierPicks, "ritmo");
    HierUpdatesFrame(m1, HierKeys, catalogs, hierPicks, "estrutura");
    HierUpdatesFrame(m1, HierKeys, catalogs, hierPicks, "estrutura_sel");
    if h != map[] && h[genre] != [] {
      assert h[genre][pickRhythm] in h[genre];
    }
  }

  /** After `random_all` with a listed rhythm item, the structure is one of the hierarchy's structures. */
  lemma RandomAllStructureListed(m: State, core: CoreData, genre: string, pickRhythm: nat, hierPicks: seq<(nat, nat)>,
                                 catPicks: seq<nat>, itemPicks: seq<nat>)
    requires RandomAllOracle(core, genre, pickRhythm, hierPicks, catPicks, itemPicks)
    requires HierarchyOf(core) != map[] && HierarchyOf(core)[genre] != []
    ensures var r := RandomAllState(m, core, genre, pickRhythm, hierPicks, catPicks, itemPicks);
      "estrutura" in r && r["estrutura"].Str? && ListedStructure(HierarchyOf(core), r["estrutura"].s)
  {
    RandomAllConsistent(m, core, genre, pickRhythm, hierPicks, catPicks, itemPicks);
    var r := RandomAllState(m, core, genre, pickRhythm, hierPicks, catPicks, itemPicks);
    var item :| item in HierarchyOf(core)[genre] && |item| >= 2 &&
      r["ritmo"] == Str(item[0]) && r["estrutura"] == Str(item[1]);
    assert genre in HierarchyOf(core) && item in HierarchyOf(core)[genre] && |item| > 1 && item[1] == r["estrutura"].s;
  }

  // ---------------------------------------------------------------------------
  // Vibe list edits
  // ---------------------------------------------------------------------------

  /** `add_vibe_click(vibe_nome)`: appended unless present; this version expects the list to exist. */
  method AddVibeClick(s: SessionState, vibeNome: string)
    requires HoldsList(s.state, VibeKey)
    modifies s
    ensures s.state == old(s.state)[VibeKey := Lst(AppendAbsent(old(s.state)[VibeKey].items, vibeNome))]
  {
    var vibes := s.state[VibeKey].items;
    if vibeNome !in vibes {
      s.state := s.state[VibeKey := Lst(vibes + [vibeNome])];
    }
  }

  /**
   * `submit_manual_vibe`: a typed vibe, stripped, is appended unless blank or
   * present, and the input box is then emptied; a blank input changes nothing.
   */
  method SubmitManualVibe(s: SessionState)
    requires NewVibeInputKey in s.state ==> s.state[NewVibeInputKey].Str?
    requires StateCallbacks.TypedVibe(s.state) != "" ==> HoldsList(s.state, VibeKey)
    modifies s
    ensures var val := StateCallbacks.TypedVibe(old(s.state));
      s.state == if val == "" then old(s.state)
        else old(s.state)[VibeKey := Lst(AppendAbsent(old(s.state)[VibeKey].items, val))][NewVibeInputKey := Str("")]
  {
    var val := Strip(if NewVibeInputKey in s.state then s.state[NewVibeInputKey].s else "");
    if val != "" {
      var vibes := s.state[VibeKey].items;
      if val !in vibes {
        s.state := s.state[VibeKey := Lst(vibes + [val])];
      }
      s.state := s.state[NewVibeInputKey := Str("")];
    }
  }

  /** Submitting twice in a row adds the typed vibe once: the second submit finds the box empty. */
  lemma SubmitTwiceOnce(m: State)
    requires NewVibeInputKey in m ==> m[NewVibeInputKey].Str?
    requires StateCallbacks.TypedVibe(m) != "" ==> HoldsList(m, VibeKey)
    ensures var val := StateCallbacks.TypedVibe(m);
      val != "" ==>
        var r := m[VibeKey := Lst(AppendAbsent(m[VibeKey].items, val))][NewVibeInputKey := Str("")];
        StateCallbacks.TypedVibe(r) == ""
  {
    var empty: string := "";
    assert Strip(empty) == "";
  }

  // ---------------------------------------------------------------------------
  // callback_restaurar
  // ---------------------------------------------------------------------------

  /** `for k, v in dados.items(): st.session_state[k] = v`. */
  method WriteAll(s: SessionState, dados: map<string, Value>)
    modifies s
    ensures s.state == old(s.state) + dados
  {
    var pending := dados.Keys;
    ghost var written: map<string, Value> := map[];
    while pending != {}
      invariant pending <= dados.Keys
      invariant written.Keys == dados.Keys - pending
      invariant forall k :: k in written ==> written[k] == dados[k]
      invariant s.state == old(s.state) + written
      decreases pending
    {
      var k :| k in pending;
      StateCallbacks.MergeUpdate(old(s.state), written, k, dados[k]);
      s.state := s.state[k := dados[k]];
      written := written[k := dados[k]];
      pending := pending - {k};
    }
    assert written == dados;
  }

  /**
   * `callback_restaurar(texto_prompt)`: the parsed fields are written, the
   * pickers' `_cat`/`_sel` keys blanked, the prompt hidden.
   */
  method CallbackRestaurar(s: SessionState, textoPrompt: string)
    modifies s
    ensures s.state == RestoredState(old(s.state), Restore(textoPrompt), HierKeys)
  {
    var dados := ParsePromptForRestore(textoPrompt);
    WriteAll(s, dados);
    ghost var restored := s.state;
    var j := 0;
    while j < |HierKeys|
      invariant 0 <= j <= |HierKeys|
      invariant s.state == ClearCatSel(restored, HierKeys[..j])
    {
      assert HierKeys[..j + 1][..j] == HierKeys[..j];
      s.state := s.state[CatKey(HierKeys[j]) := Str("")][SelKey(HierKeys[j]) := Str("")];
      j := j + 1;
    }
    assert HierKeys[..j] == HierKeys;
    s.state := s.state[ShowPromptKey := Bool(false)];
  }
}
