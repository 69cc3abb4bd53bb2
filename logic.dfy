/**
 * Catalog queries for the dependent genre -> rhythm -> structure fields, and
 * the parser that restores form fields from a previously generated document.
 */
module Logic {
  import opened Options
  import opened Text
  import opened Session
  import opened Catalogs

  // ---------------------------------------------------------------------------
  // Dependent-field queries
  // ---------------------------------------------------------------------------

  /** Every rhythm item of `genero` has a first component (otherwise `item[0]` raises). */
  predicate RhythmsNamed(h: Hierarchy, genero: string) {
    genero in h ==> forall item :: item in h[genero] ==> |item| >= 1
  }

  /** Every rhythm item of `genero` has a structure component (otherwise `item[1]` raises). */
  predicate RhythmsPaired(h: Hierarchy, genero: string) {
    genero in h ==> Paired(h[genero])
  }

  /** The genre selects nothing: it is blank or no genre of the hierarchy. */
  predicate UnknownGenre(genero: string, core: CoreData) {
    genero == "" || genero !in HierarchyOf(core)
  }

  /** `get_ritmos_list`: the rhythms offered for a genre, in catalog order. */
  function GetRitmosList(genero: string, core: CoreData): (r: seq<string>)
    requires RhythmsNamed(HierarchyOf(core), genero)
    ensures UnknownGenre(genero, core) ==> r == []
    ensures !UnknownGenre(genero, core) ==>
      var items := HierarchyOf(core)[genero];
      |r| == |items| && forall i :: 0 <= i < |r| ==> r[i] == items[i][0]
  {
    var h := HierarchyOf(core);
    if genero == "" || genero !in h then []
    else seq(|h[genero]|, i requires 0 <= i < |h[genero]| => h[genero][i][0])
  }

  /** Every item has a rhythm and a structure component. */
  predicate Paired(items: seq<seq<string>>) {
    forall i :: 0 <= i < |items| ==> |items[i]| >= 2
  }

  /** No later item than the `i`-th names the same rhythm. */
  predicate LastOfRhythm(items: seq<seq<string>>, i: int)
    requires 0 <= i < |items| && |items[i]| >= 1
    requires forall j :: i < j < |items| ==> |items[j]| >= 1
  {
    forall j :: i < j < |items| ==> items[j][0] != items[i][0]
  }

  /**
   * A dict comprehension `{item[0]: item[1] for item in items}`: a later item
   * with the same rhythm overwrites an earlier one.
   */
  function PairsToMap(items: seq<seq<string>>): (m: map<string, string>)
    requires Paired(items)
    ensures forall k :: k in m <==> exists i :: 0 <= i < |items| && items[i][0] == k
  {
    if items == [] then map[]
    else
      var n := |items| - 1;
      var init := items[..n];
      var m := PairsToMap(init);
      assert forall k :: k in m <==> exists i :: 0 <= i < n && items[i][0] == k;
      m[items[n][0] := items[n][1]]
  }

  /** The value kept for a rhythm is the structure of the last item naming it. */
  lemma {:induction false} PairsToMapLastWins(items: seq<seq<string>>, i: int)
    requires Paired(items) && 0 <= i < |items| && LastOfRhythm(items, i)
    ensures PairsToMap(items)[items[i][0]] == items[i][1]
  {
    var n := |items| - 1;
    if i < n {
      var init := items[..n];
      assert init[i] == items[i];
      assert LastOfRhythm(init, i);
      PairsToMapLastWins(init, i);
    }
  }

  /** `get_structure_map`: rhythm -> suggested structure for a genre. */
  function GetStructureMap(genero: string, core: CoreData): (r: map<string, string>)
    requires RhythmsPaired(HierarchyOf(core), genero)
    ensures UnknownGenre(genero, core) ==> r == map[]
    ensures !UnknownGenre(genero, core) ==>
      var items := HierarchyOf(core)[genero];
      && (forall k :: k in r <==> exists i :: 0 <= i < |items| && items[i][0] == k)
      && forall i :: 0 <= i < |items| && LastOfRhythm(items, i) ==> r[items[i][0]] == items[i][1]
  {
    var h := HierarchyOf(core);
    if genero == "" || genero !in h then map[]
    else
      var items := h[genero];
      forall i | 0 <= i < |items| && LastOfRhythm(items, i) ensures PairsToMap(items)[items[i][0]] == items[i][1] {
        PairsToMapLastWins(items, i);
      }
      PairsToMap(items)
  }

  /** The keys of the structure map are exactly the rhythms listed for the genre. */
  lemma RhythmsAreStructureKeys(genero: string, core: CoreData)
    requires RhythmsPaired(HierarchyOf(core), genero)
    ensures GetStructureMap(genero, core).Keys == set r | r in GetRitmosList(genero, core)
  {
    if !UnknownGenre(genero, core) {
      var items := HierarchyOf(core)[genero];
      var rs := GetRitmosList(genero, core);
      forall x | x in GetStructureMap(genero, core).Keys ensures x in rs {
        var i :| 0 <= i < |items| && items[i][0] == x;
        assert rs[i] == x;
      }
    }
  }

  /** `get_structure_map(genero).get(ritmo, "")`: the structure suggested for a rhythm. */
  function SuggestedStructure(genero: string, ritmo: string, core: CoreData): (r: string)
    requires RhythmsPaired(HierarchyOf(core), genero)
    ensures r != "" ==> !UnknownGenre(genero, core) && ritmo in GetRitmosList(genero, core)
    ensures !UnknownGenre(genero, core) ==>
      var items := HierarchyOf(core)[genero];
      forall i :: 0 <= i < |items| && items[i][0] == ritmo && LastOfRhythm(items, i) ==> r == items[i][1]
  {
    var mapa := GetStructureMap(genero, core);
    RhythmsAreStructureKeys(genero, core);
    if ritmo in mapa then mapa[ritmo] else ""
  }

  /** `s` is the structure component of some rhythm item of some genre. */
  ghost predicate ListedStructure(h: Hierarchy, s: string) {
    exists g, item :: g in h && item in h[g] && |item| > 1 && item[1] == s
  }

  /** The structure-bearing items of `items` contain one whose structure is `s`. */
  ghost predicate StructureAmong(items: seq<seq<string>>, s: string) {
    exists item :: item in items && |item| > 1 && item[1] == s
  }

  /** Places `x` into an ascending list, keeping it ascending and free of repeats. */
  function Insert(s: seq<string>, x: string): (r: seq<string>)
    requires StrictlyAscending(s)
    ensures StrictlyAscending(r)
    ensures forall y :: y in r <==> y in s || y == x
  {
    if s == [] then [x]
    else if x == s[0] then s
    else if Less(x, s[0]) then
      LessThanAllAfterHead(x, s);
      [x] + s
    else
      LessTotal(x, s[0]);
      var rest := Insert(s[1..], x);
      assert forall y :: y in s[1..] ==> Less(s[0], y);
      [s[0]] + rest
  }

  lemma LessThanAllAfterHead(x: string, s: seq<string>)
    requires s != [] && StrictlyAscending(s) && Less(x, s[0])
    ensures forall j :: 0 <= j < |s| ==> Less(x, s[j])
  {
    forall j | 0 < j < |s| {
      LessTransitive(x, s[0], s[j]);
    }
  }

  /** `sorted(list(structures))`. */
  method SortedList(structures: set<string>) returns (r: seq<string>)
    ensures StrictlyAscending(r)
    ensures forall s :: s in r <==> s in structures
  {
    r := [];
    var pending := structures;
    while pending != {}
      invariant pending <= structures
      invariant StrictlyAscending(r)
      invariant forall s :: s in r <==> s in structures - pending
      decreases pending
    {
      var s :| s in pending;
      r := Insert(r, s);
      pending := pending - {s};
    }
  }

  /** `get_all_unique_structures`: every structure of the hierarchy, sorted, once each. */
  method GetAllUniqueStructures(core: CoreData) returns (r: seq<string>)
    ensures StrictlyAscending(r)
    ensures forall s :: s in r <==> ListedStructure(HierarchyOf(core), s)
  {
    var structures: set<string> := {};
    var hierarquia := HierarchyOf(core);
    var pending := hierarquia.Keys;
    while pending != {}
      invariant pending <= hierarquia.Keys
      invariant forall s :: s in structures <==>
        exists g :: g in hierarquia.Keys - pending && StructureAmong(hierarquia[g], s)
      decreases pending
    {
      var g :| g in pending;
      var genList := hierarquia[g];
      var i := 0;
      while i < |genList|
        invariant 0 <= i <= |genList|
        invariant forall s :: s in structures <==>
          (exists g' :: g' in hierarquia.Keys - pending && StructureAmong(hierarquia[g'], s))
          || StructureAmong(genList[..i], s)
      {
        var item := genList[i];
        assert genList[..i + 1] == genList[..i] + [item];
        if |item| > 1 {
          structures := structures + {item[1]};
        }
        i := i + 1;
      }
      assert genList[..i] == genList;
      pending := pending - {g};
    }
    r := SortedList(structures);
  }

  // ---------------------------------------------------------------------------
  // Restoring form fields from a generated document
  // ---------------------------------------------------------------------------

  /** The line after which a document holds only text the generator added. */
  const Marker: string := "AUTOMATIC_INPUTS:"

  /** The placeholder the generator writes for an empty field. */
  const Sentinel: string := "AUTOMATIC_INPUT"

  /** The one list-valued field. */
  const VibeField: string := "vibe_emocional"

  /** A document label and the session field it restores. */
  datatype LabelRow = LabelRow(promptKey: string, field: string)

  /** The label -> field table, in the order the parser visits it. */
  const LabelTable: seq<LabelRow> := [
    LabelRow("primary_genre", "genero"), LabelRow("specific_style", "ritmo"),
    LabelRow("recording_aesthetic", "tipo_de_gravacao"), LabelRow("artistic_influence", "influencia_estetica"),
    LabelRow("emotional_vibe", "vibe_emocional"), LabelRow("external_refs", "referencia"),
    LabelRow("language", "idioma"), LabelRow("topic", "tema"), LabelRow("core_message", "mensagem"),
    LabelRow("keywords", "palavras_chave"), LabelRow("target_audience", "publico"),
    LabelRow("narrator_perspective", "narrador"), LabelRow("structure_format", "estrutura"),
    LabelRow("lyrical_tone", "tom")
  ]

  /** The fields the parser can restore. */
  function RestorableFields(): set<string> {
    set row | row in LabelTable :: row.field
  }

  /** `text.split(Marker)[0]`: the text before the first marker, or all of it. */
  function UserSection(text: string): (r: string)
    ensures |r| <= |text| && r == text[..|r|]
    ensures !Contains(text, Marker) ==> r == text
    ensures Contains(text, Marker) ==> OccursAt(text, Marker, |r|)
    ensures !Contains(r, Marker)
  {
    match IndexOf(text, Marker)
    case Some(k) =>
      var r := text[..k];
      assert forall j :: 0 <= j <= |r| - |Marker| && OccursAt(r, Marker, j) ==> OccursAt(text, Marker, j) by {
        forall j | 0 <= j <= |r| - |Marker| && OccursAt(r, Marker, j) ensures OccursAt(text, Marker, j) {
          assert text[j..j + |Marker|] == r[j..j + |Marker|];
        }
      }
      r
    case None => text
  }

  /** The opening `label: "` of a quoted field. */
  function Opening(key: string): string {
    key + ": \""
  }

  /**
   * The index of the first `"` at or after `p`, provided no line break comes
   * before it: where a lazy `.*?"` stops, since `.` does not match a newline.
   */
  function ClosingQuote(t: string, p: nat): (r: Option<nat>)
    decreases |t| - p
    ensures r.Some? ==> p <= r.value < |t| && t[r.value] == '"'
    ensures r.Some? ==> forall j :: p <= j < r.value ==> t[j] != '"' && t[j] != '\n'
    ensures r.None? ==> forall q :: p <= q < |t| && t[q] == '"' ==> exists j :: p <= j < q && t[j] == '\n'
  {
    if p >= |t| then None
    else if t[p] == '"' then Some(p)
    else if t[p] == '\n' then None
    else ClosingQuote(t, p + 1)
  }

  /** The group captured by `label: "(.*?)"` when the pattern matches at index `i`. */
  function MatchAt(t: string, key: string, i: nat): Option<string> {
    var open := Opening(key);
    if OccursAt(t, open, i) then
      match ClosingQuote(t, i + |open|)
      case Some(q) => Some(t[i + |open|..q])
      case None => None
    else None
  }

  /** `re.search(label + ': "(.*?)"', t)` from index `i` on: the leftmost match's group. */
  function SearchFrom(t: string, key: string, i: nat): (r: Option<string>)
    decreases |t| - i
    ensures r.Some? ==> exists j :: i <= j && MatchAt(t, key, j) == r && forall k :: i <= k < j ==> MatchAt(t, key, k).None?
    ensures r.None? ==> forall j :: i <= j ==> MatchAt(t, key, j).None?
  {
    if i + |Opening(key)| > |t| then None
    else if MatchAt(t, key, i).Some? then MatchAt(t, key, i)
    else SearchFrom(t, key, i + 1)
  }

  /** `re.search(label + ': "(.*?)"', t)`: the group of the leftmost match, if any. */
  function Search(t: string, key: string): Option<string> {
    SearchFrom(t, key, 0)
  }

  /**
   * `label: "` occurs in `t`, and after it a `"` closes the value before any
   * line break.
   */
  ghost predicate QuotedAfterLabel(t: string, key: string) {
    exists i, q :: OccursAt(t, Opening(key), i) && i + |Opening(key)| <= q < |t| && t[q] == '"'
      && forall j :: i + |Opening(key)| <= j < q ==> t[j] != '\n'
  }

  /** A match at `i` captures a value without quote or line break, written literally in `t`. */
  lemma MatchAtFound(t: string, key: string, i: nat)
    requires MatchAt(t, key, i).Some?
    ensures QuotedAfterLabel(t, key)
    ensures var v := MatchAt(t, key, i).value;
      '"' !in v && '\n' !in v && OccursAt(t, Opening(key) + v + "\"", i)
  {
    var open := Opening(key);
    var p := i + |open|;
    var q := ClosingQuote(t, p).value;
    var v := t[p..q];
    assert forall k :: p <= k < q ==> t[k] != '\n';
    assert forall c :: c in v ==> c != '"' && c != '\n';
    assert t[i..q + 1] == t[i..p] + t[p..q] + [t[q]];
  }

  /** A label followed by a value closed on its line matches where the label starts. */
  lemma QuotedMatches(t: string, key: string, i: nat, q: nat)
    requires OccursAt(t, Opening(key), i) && i + |Opening(key)| <= q < |t| && t[q] == '"'
    requires forall j :: i + |Opening(key)| <= j < q ==> t[j] != '\n'
    ensures MatchAt(t, key, i).Some?
  {
  }

  /**
   * The search finds a value exactly when the label is followed by a quoted
   * value on its line; a found value has no quote and no line break, and the
   * text holds it literally as `label: "value"`.
   */
  lemma SearchFinds(t: string, key: string)
    ensures Search(t, key).Some? <==> QuotedAfterLabel(t, key)
    ensures Search(t, key).Some? ==>
      exists j :: 0 <= j && MatchAt(t, key, j) == Search(t, key) && forall k :: 0 <= k < j ==> MatchAt(t, key, k).None?
    ensures Search(t, key).Some? ==>
      var v := Search(t, key).value;
      '"' !in v && '\n' !in v && Contains(t, Opening(key) + v + "\"")
  {
    if Search(t, key).Some? {
      var j :| 0 <= j && MatchAt(t, key, j) == Search(t, key) && forall k :: 0 <= k < j ==> MatchAt(t, key, k).None?;
      MatchAtFound(t, key, j);
    } else if QuotedAfterLabel(t, key) {
      var i, q :| OccursAt(t, Opening(key), i) && i + |Opening(key)| <= q < |t| && t[q] == '"'
        && forall j :: i + |Opening(key)| <= j < q ==> t[j] != '\n';
      QuotedMatches(t, key, i, q);
    }
  }

  /** `[v.strip() for v in parts if v.strip()]`. */
  function StrippedTokens(parts: seq<string>): seq<string> {
    if parts == [] then []
    else
      var tok := Strip(parts[0]);
      var rest := StrippedTokens(parts[1..]);
      if tok == "" then rest else [tok] + rest
  }

  /** The kept tokens are non-blank and trimmed, and have no character that no part had. */
  lemma {:induction false} StrippedTokensClean(parts: seq<string>, bad: set<char>)
    requires forall k :: 0 <= k < |parts| ==> Avoids(parts[k], bad)
    ensures forall k :: 0 <= k < |StrippedTokens(parts)| ==>
      var tok := StrippedTokens(parts)[k];
      tok != "" && IsTrimmed(tok) && Avoids(tok, bad)
  {
    if parts != [] {
      StripChars(parts[0]);
      StrippedTokensClean(parts[1..], bad);
    }
  }

  /** The characters stripped from a restored vibe list before it is split. */
  const VibeNoise: set<char> := {'[', ']', '\'', '"'}

  /** A vibe token: non-blank, trimmed, free of list punctuation and of commas. */
  predicate CleanToken(tok: string) {
    tok != "" && IsTrimmed(tok) && Avoids(tok, VibeNoise + {','})
  }

  /** The vibe list written as `a, b, ...` (possibly bracketed or quoted) back as tokens. */
  function VibeTokens(valor: string): (r: seq<string>)
    ensures forall k :: 0 <= k < |r| ==> CleanToken(r[k])
  {
    var limpo := RemoveAll(valor, VibeNoise);
    var parts := Split(limpo, ',');
    assert forall k :: 0 <= k < |parts| ==> Avoids(parts[k], VibeNoise + {','});
    StrippedTokensClean(parts, VibeNoise + {','});
    StrippedTokens(parts)
  }

  /** `[" " + t for t in ts]`: the pieces after the first when `", "`-joined text is split at commas. */
  function Padded(ts: seq<string>): (r: seq<string>)
    ensures |r| == |ts|
  {
    if ts == [] then [] else [" " + ts[0]] + Padded(ts[1..])
  }

  /** Splitting `", ".join(toks)` at commas gives the first token, then each later one after a space. */
  lemma {:induction false} SplitCommaJoin(toks: seq<string>)
    requires toks != [] && forall k :: 0 <= k < |toks| ==> ',' !in toks[k]
    ensures Split(Join(toks, ", "), ',') == [toks[0]] + Padded(toks[1..])
  {
    if |toks| == 1 {
      SplitAfterAvoiding(toks[0], "", ',');
      assert toks[0] + "" == toks[0];
    } else {
      var rest := toks[1..];
      var j := Join(rest, ", ");
      SplitCommaJoin(rest);
      assert rest[0] == toks[1] && rest[1..] == toks[2..];
      SplitAfterAvoiding(" ", j, ',');
      assert Split(" " + j, ',') == Padded(rest);
      SplitAtSeparator(" " + j, ',');
      assert Join(toks, ", ") == toks[0] + ([','] + (" " + j));
      SplitAfterAvoiding(toks[0], [','] + (" " + j), ',');
      assert toks[0] + "" == toks[0];
    }
  }

  /** Stripping the spaced pieces gives the clean tokens back. */
  lemma {:induction false} StrippedPadded(ts: seq<string>)
    requires forall k :: 0 <= k < |ts| ==> CleanToken(ts[k])
    ensures StrippedTokens(Padded(ts)) == ts
  {
    if ts != [] {
      StripLeadingSpace(ts[0]);
      StrippedPadded(ts[1..]);
      assert Padded(ts)[1..] == Padded(ts[1..]);
    }
  }

  /** `", ".join` of clean tokens has no margin: it starts and ends inside a token. */
  lemma {:induction false} JoinTrimmed(toks: seq<string>)
    requires toks != [] && forall k :: 0 <= k < |toks| ==> CleanToken(toks[k])
    ensures Join(toks, ", ") != "" && IsTrimmed(Join(toks, ", "))
  {
    if |toks| > 1 {
      JoinTrimmed(toks[1..]);
      var j := Join(toks[1..], ", ");
      var r := toks[0] + ", " + j;
      assert r[0] == toks[0][0] && r[|r| - 1] == j[|j| - 1];
    }
  }

  /** The `", "` separator carries none of the characters a restored vibe list drops. */
  lemma SeparatorNotNoise()
    ensures Avoids(", ", VibeNoise)
  {
    assert forall c :: c in ", " ==> c == ',' || c == ' ';
  }

  /** `", ".join` of clean tokens holds none of the characters a restored vibe list drops. */
  lemma JoinCleanNoiseFree(toks: seq<string>)
    requires forall k :: 0 <= k < |toks| ==> CleanToken(toks[k])
    ensures RemoveAll(Join(toks, ", "), VibeNoise) == Join(toks, ", ")
  {
    forall k | 0 <= k < |toks| ensures Avoids(toks[k], VibeNoise) {
      assert CleanToken(toks[k]);
    }
    SeparatorNotNoise();
    JoinAvoids(toks, ", ", VibeNoise);
  }

  /** Clean tokens hold no comma. */
  lemma CleanCommaFree(toks: seq<string>)
    requires forall k :: 0 <= k < |toks| ==> CleanToken(toks[k])
    ensures forall k :: 0 <= k < |toks| ==> ',' !in toks[k]
  {
    forall k | 0 <= k < |toks| ensures ',' !in toks[k] {
      assert CleanToken(toks[k]);
    }
  }

  /** Stripping the first token and the spaced rest gives the clean tokens back. */
  lemma StrippedFirstPadded(toks: seq<string>)
    requires toks != [] && forall k :: 0 <= k < |toks| ==> CleanToken(toks[k])
    ensures StrippedTokens([toks[0]] + Padded(toks[1..])) == toks
  {
    var parts := [toks[0]] + Padded(toks[1..]);
    assert parts[0] == toks[0] && parts[1..] == Padded(toks[1..]);
    assert CleanToken(toks[0]);
    StripTrimmed(toks[0]);
    assert forall k :: 0 <= k < |toks[1..]| ==> CleanToken(toks[1..][k]);
    StrippedPadded(toks[1..]);
    assert toks == [toks[0]] + toks[1..];
  }

  /** The comma split of `", ".join` of clean tokens, stripped piece by piece, is the tokens. */
  lemma SplitJoinClean(toks: seq<string>)
    requires toks != [] && forall k :: 0 <= k < |toks| ==> CleanToken(toks[k])
    ensures StrippedTokens(Split(Join(toks, ", "), ',')) == toks
  {
    CleanCommaFree(toks);
    SplitCommaJoin(toks);
    StrippedFirstPadded(toks);
  }

  /**
   * The vibe list round trip: a list of clean tokens written `a, b, ...`
   * reads back as the same list.
   */
  lemma VibeTokensJoin(toks: seq<string>)
    requires toks != [] && forall k :: 0 <= k < |toks| ==> CleanToken(toks[k])
    ensures VibeTokens(Join(toks, ", ")) == toks
  {
    JoinCleanNoiseFree(toks);
    SplitJoinClean(toks);
  }

  /**
   * A vibe list written `a, b, ...` in the document restores as that list,
   * unless the written text itself means empty.
   */
  lemma RestoredVibeList(toks: seq<string>)
    requires toks != [] && forall k :: 0 <= k < |toks| ==> CleanToken(toks[k])
    requires !MeansEmpty(Join(toks, ", "))
    ensures Restored(VibeField, Join(toks, ", ")) == Lst(toks)
  {
    JoinTrimmed(toks);
    StripTrimmed(Join(toks, ", "));
    VibeTokensJoin(toks);
  }

  /** A captured value means "empty": it holds the placeholder, is `none`, or is blank. */
  predicate MeansEmpty(valor: string) {
    Contains(valor, Sentinel) || LowerIsNone(valor) || valor == ""
  }

  /** The session value restored for `field` from the captured text. */
  function Restored(field: string, captured: string): (v: Value)
    ensures field == VibeField ==> v.Lst? && forall k :: 0 <= k < |v.items| ==> CleanToken(v.items[k])
    ensures field == VibeField && v.items != [] ==> !MeansEmpty(Strip(captured))
    ensures field == VibeField && !MeansEmpty(Strip(captured)) ==> v.items == VibeTokens(Strip(captured))
    ensures field != VibeField ==> v.Str? && IsTrimmed(v.s) && forall c :: c in v.s ==> c in captured
    ensures field != VibeField ==> (v.s == "" <==> MeansEmpty(Strip(captured)))
    ensures field != VibeField && v.s != "" ==> v.s == Strip(captured)
  {
    var valor := Strip(captured);
    StripChars(captured);
    if MeansEmpty(valor) then (if field == VibeField then Lst([]) else Str(""))
    else if field == VibeField then Lst(VibeTokens(valor))
    else Str(valor)
  }

  /** The value the row `row` contributes, when its label is found. */
  function RowValue(section: string, row: LabelRow): Option<Value> {
    match Search(section, row.promptKey)
    case Some(c) => Some(Restored(row.field, c))
    case None => None
  }

  /** The values the rows of a label table find in `section`, row by row. */
  function Found(section: string, rows: seq<LabelRow>): (found: seq<Option<Value>>)
    ensures |found| == |rows|
  {
    seq(|rows|, i requires 0 <= i < |rows| => RowValue(section, rows[i]))
  }

  /** The dictionary filled by writing, in table order, each row's found value under its field. */
  function Assemble(rows: seq<LabelRow>, found: seq<Option<Value>>): map<string, Value>
    requires |found| == |rows|
  {
    if rows == [] then map[]
    else
      var n := |rows| - 1;
      var m := Assemble(rows[..n], found[..n]);
      if found[n].Some? then m[rows[n].field := found[n].value] else m
  }

  /** `parse_prompt_for_restore`: the fields a document restores (others are omitted). */
  function Restore(text: string): map<string, Value> {
    Assemble(LabelTable, Found(UserSection(text), LabelTable))
  }

  /** The table restores each field from one label only. */
  predicate DistinctFields(rows: seq<LabelRow>) {
    forall i, j :: 0 <= i < j < |rows| ==> rows[i].field != rows[j].field
  }

  lemma LabelTableDistinct()
    ensures DistinctFields(LabelTable)
  {
  }

  /** With distinct fields, a field is written iff its row found a value, and holds that value. */
  lemma {:induction false} AssembleSpec(rows: seq<LabelRow>, found: seq<Option<Value>>)
    requires |found| == |rows| && DistinctFields(rows)
    ensures forall f :: f in Assemble(rows, found) ==> exists i :: 0 <= i < |rows| && rows[i].field == f
    ensures forall i :: 0 <= i < |rows| ==> (rows[i].field in Assemble(rows, found) <==> found[i].Some?)
    ensures forall i :: 0 <= i < |rows| && found[i].Some? ==> Assemble(rows, found)[rows[i].field] == found[i].value
  {
    if rows != [] {
      var n := |rows| - 1;
      var pr, pf := rows[..n], found[..n];
      assert forall i :: 0 <= i < n ==> pr[i] == rows[i] && pf[i] == found[i];
      AssembleSpec(pr, pf);
      var m := Assemble(pr, pf);
      var r := Assemble(rows, found);
      assert r == if found[n].Some? then m[rows[n].field := found[n].value] else m;
      forall f | f in r ensures exists i :: 0 <= i < |rows| && rows[i].field == f {
        if f !in m {
          assert rows[n].field == f;
        } else {
          var i :| 0 <= i < n && pr[i].field == f;
          assert rows[i].field == f;
        }
      }
      forall i | 0 <= i < |rows|
        ensures rows[i].field in r <==> found[i].Some?
        ensures found[i].Some? ==> r[rows[i].field] == found[i].value
      {
        if i < n {
          assert rows[i].field != rows[n].field;
          assert pr[i] == rows[i] && pf[i] == found[i];
        }
      }
    }
  }

  /** A row finds a value exactly when its label has a quoted value, and restores that capture. */
  lemma RowValueSpec(section: string, row: LabelRow)
    ensures RowValue(section, row).Some? <==> QuotedAfterLabel(section, row.promptKey)
    ensures RowValue(section, row).Some? ==>
      Search(section, row.promptKey).Some? && RowValue(section, row).value == Restored(row.field, Search(section, row.promptKey).value)
  {
    SearchFinds(section, row.promptKey);
  }

  /** Over any table with distinct fields: only its fields are filled, each by its own row. */
  lemma FoundRows(section: string, rows: seq<LabelRow>)
    requires DistinctFields(rows)
    ensures forall f :: f in Assemble(rows, Found(section, rows)) ==> exists i :: 0 <= i < |rows| && rows[i].field == f
    ensures forall i :: 0 <= i < |rows| ==>
      && (rows[i].field in Assemble(rows, Found(section, rows)) <==> QuotedAfterLabel(section, rows[i].promptKey))
      && (Search(section, rows[i].promptKey).Some? ==>
            Assemble(rows, Found(section, rows))[rows[i].field] == Restored(rows[i].field, Search(section, rows[i].promptKey).value))
  {
    var found := Found(section, rows);
    var m := Assemble(rows, found);
    AssembleSpec(rows, found);
    forall i | 0 <= i < |rows|
      ensures rows[i].field in m <==> QuotedAfterLabel(section, rows[i].promptKey)
      ensures Search(section, rows[i].promptKey).Some? ==>
        m[rows[i].field] == Restored(rows[i].field, Search(section, rows[i].promptKey).value)
    {
      assert found[i] == RowValue(section, rows[i]);
      RowValueSpec(section, rows[i]);
    }
  }

  /**
   * Restoring writes only the fields of the table, and a field exactly when
   * its label is followed by a quoted value on its line in the user section;
   * its value is the one the captured text restores.
   */
  lemma RestoreKeys(text: string)
    ensures Restore(text).Keys <= RestorableFields()
    ensures forall i :: 0 <= i < |LabelTable| ==>
      && (LabelTable[i].field in Restore(text) <==> QuotedAfterLabel(UserSection(text), LabelTable[i].promptKey))
      && (Search(UserSection(text), LabelTable[i].promptKey).Some? ==>
            Restore(text)[LabelTable[i].field] == Restored(LabelTable[i].field, Search(UserSection(text), LabelTable[i].promptKey).value))
  {
    LabelTableDistinct();
    FoundRows(UserSection(text), LabelTable);
  }

  /**
   * Every restored value has its field's shape: the vibe list holds clean
   * tokens; any other field is a trimmed string with no quote or line break
   * that is blank or neither the placeholder nor `none`.
   */
  lemma RestoreValues(text: string)
    ensures VibeField in Restore(text) ==>
      var v := Restore(text)[VibeField];
      v.Lst? && forall k :: 0 <= k < |v.items| ==> CleanToken(v.items[k])
    ensures forall f :: f in Restore(text) && f != VibeField ==>
      var v := Restore(text)[f];
      && v.Str? && IsTrimmed(v.s) && '"' !in v.s && '\n' !in v.s
      && (v.s == "" || (!Contains(v.s, Sentinel) && !LowerIsNone(v.s)))
  {
    LabelTableDistinct();
    var section := UserSection(text);
    AssembleSpec(LabelTable, Found(section, LabelTable));
    forall f | f in Restore(text)
      ensures f == VibeField ==> Restore(text)[f].Lst? && forall k :: 0 <= k < |Restore(text)[f].items| ==> CleanToken(Restore(text)[f].items[k])
      ensures f != VibeField ==> var v := Restore(text)[f];
        && v.Str? && IsTrimmed(v.s) && '"' !in v.s && '\n' !in v.s
        && (v.s == "" || (!Contains(v.s, Sentinel) && !LowerIsNone(v.s)))
    {
      var i :| 0 <= i < |LabelTable| && LabelTable[i].field == f;
      SearchFinds(section, LabelTable[i].promptKey);
    }
  }

  lemma MarkerHasOneColon(k: int)
    requires 0 <= k < 16
    ensures Marker[k] != Marker[16]
  {
  }

  /** A document cannot hold the marker across its first character boundary: `:` ends it and occurs once. */
  lemma {:induction false} MarkerFollowsSection(p: string, s: string)
    requires !Contains(p, Marker)
    ensures UserSection(p + Marker + s) == p
  {
    var t := p + Marker + s;
    assert OccursAt(t, Marker, |p|) by {
      assert t[|p|..|p| + |Marker|] == Marker;
    }
    forall j | 0 <= j < |p| ensures !OccursAt(t, Marker, j) {
      if OccursAt(t, Marker, j) {
        if j + |Marker| <= |p| {
          assert p[j..j + |Marker|] == t[j..j + |Marker|];
          assert OccursAt(p, Marker, j);
        } else {
          var k := j + 16 - |p|;
          assert t[j..j + |Marker|] == Marker;
          assert t[j + 16] == Marker[16];
          assert t[j + 16] == Marker[k];
          MarkerHasOneColon(k);
        }
      }
    }
    assert IndexOf(t, Marker) == Some(|p|);
  }

  /** Restoring reads only the text before the first marker: anything after it is ignored. */
  lemma RestoreIgnoresTail(p: string, s: string)
    requires !Contains(p, Marker)
    ensures Restore(p + Marker + s) == Restore(p)
  {
    MarkerFollowsSection(p, s);
  }

  /** Reading one more row of the table: its found value, if any, is written over the others. */
  lemma AssembleStep(section: string, rows: seq<LabelRow>, i: nat)
    requires i < |rows|
    ensures var found := Found(section, rows);
      Assemble(rows[..i + 1], found[..i + 1]) ==
        if RowValue(section, rows[i]).Some?
        then Assemble(rows[..i], found[..i])[rows[i].field := RowValue(section, rows[i]).value]
        else Assemble(rows[..i], found[..i])
  {
    var found := Found(section, rows);
    assert rows[..i + 1][..i] == rows[..i] && found[..i + 1][..i] == found[..i];
    assert found[..i + 1][i] == RowValue(section, rows[i]);
  }

  /** The loop of `parse_prompt_for_restore`: one search per row of the table, in order. */
  method FillRows(section: string, rows: seq<LabelRow>) returns (m: map<string, Value>)
    ensures m == Assemble(rows, Found(section, rows))
  {
    m := map[];
    var i := 0;
    while i < |rows|
      invariant 0 <= i <= |rows|
      invariant m == Assemble(rows[..i], Found(section, rows)[..i])
    {
      var row := rows[i];
      AssembleStep(section, rows, i);
      var match_ := Search(section, row.promptKey);
      if match_.Some? {
        m := m[row.field := Restored(row.field, match_.value)];
      }
      i := i + 1;
    }
    assert rows[..i] == rows && Found(section, rows)[..i] == Found(section, rows);
  }

  /** `parse_prompt_for_restore`: cut the user section, then read the label table over it. */
  method ParsePromptForRestore(textoPrompt: string) returns (mapeamento: map<string, Value>)
    ensures mapeamento == Restore(textoPrompt)
  {
    var textoUsuario := UserSection(textoPrompt);
    mapeamento := FillRows(textoUsuario, LabelTable);
  }
}
