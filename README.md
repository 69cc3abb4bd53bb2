# SunoMaestro form engine, modelled in Dafny

SunoMaestro is a Streamlit form that builds a prompt for a music generator.
The user picks a genre, then a rhythm of that genre, then a song structure.
They also pick hierarchical fields (audience, recording type, narrator, ...),
tag sets and a list of "emotional vibes". Each widget callback updates
`st.session_state`, one mutable dictionary. A previously generated document
can be pasted back, and its fields are restored from the `label: "value"`
lines before the `AUTOMATIC_INPUTS:` marker.

This project models:

- the catalog queries and the restore parser of `core/logic.py`;
- the callbacks and constants of the single-file application `app/state.py`;
- the callbacks of the refactored application `app/callbacks.py`, together
  with the constants in `core/config.py`.

Module layout (one file per module):

| file | module | what it holds |
|---|---|---|
| options.dfy | Options | `Option` |
| text.dfy | Text | the Python string operations used: `strip`, `split`, `join`, `in`, `replace`, `lower() == "none"`, code-point order for `sorted` |
| session.dfy | Session | the session `Value`s, the `SessionState` class (a `state` map updated in place), `_cat`/`_sel` key names |
| catalogs.dfy | Catalogs | the loaded data: the genre -> rhythm-item hierarchy and the category catalogs |
| config.dfy | Config | `HIER_KEYS` and `STATE_DEFAULTS` of `core/config.py` |
| logic.dfy | Logic | `get_ritmos_list`, `get_structure_map`, `get_all_unique_structures`, `parse_prompt_for_restore` |
| selection.dfy | Selection | the one-item-per-category rule of `handle_tag_selection` |
| sampling.dfy | Sampling | what the randomisers draw, with every random draw an oracle argument |
| edits.dfy | Edits | the vibe-list and structure-line edits |
| state_ops.dfy | StateOps | the whole-dictionary effects of clearing, restoring and the categorized pickers |
| state_callbacks.dfy | StateCallbacks | the callbacks of `app/state.py` |
| callbacks.dfy | Callbacks | the callbacks of `app/callbacks.py`; those identical to `app/state.py`'s reuse StateCallbacks |

Every callback is a module-level method that takes the session, `s: SessionState`,
and carries `modifies s`. Its `ensures` gives the new `state` as a function of the old one. Lemmas about those
functions then say, key by key, what changed and that nothing else did.

Randomness becomes oracle arguments:

- a position for `random.choice`;
- a sequence of distinct positions for `random.sample`;
- the length of the draw sequence for `random.randint`.

The `requires` clauses state the legal ranges. Every property is proved for
every legal draw.

Where the code and the documented design disagree, the model follows the code:

- `item_to_cat` in `handle_tag_selection` is filled category by category, so
  the LAST category listing a name wins, not the first.
- The two applications differ.
  - `app/state.py` has 3 `HIER_KEYS` and 23 defaults; `core/config.py` has 5 and 17.
  - Both `clear_all` callbacks blank `new_vibe_input`, since both default
    tables list it. Only the `app/state.py` one also assigns it `""` explicitly
    (app/state.py:86-88), which changes nothing further.
  - Only the `app/callbacks.py` `submit_manual_vibe` clears its input box.
  - Only the `app/state.py` `add_vibe_click` creates a missing vibe list.
  - `app/state.py` reads the catalogs with `core.dados[...]`, which raises when
    a key is missing. `app/callbacks.py` uses `.get(..., {})`, which reads a
    missing catalog as empty.
- Five callbacks are identical in both applications and are modelled once, in
  StateCallbacks: `on_genero_change` (app/callbacks.py:16-17),
  `on_estrutura_sel_change` (app/callbacks.py:27-29), `randomize_hier_callback`
  (app/callbacks.py:39-46), `add_tag_to_structure` (app/callbacks.py:83-85) and
  `delete_vibe` (app/callbacks.py:93-95). `clear_hier_callback` is modelled
  once, in Callbacks; its app/state.py copy is at app/state.py:99-102.
- The helper copies at app/state.py:35-48 are the same code as
  `core/logic.py`, except that they index `core.dados["hierarquia"]` directly
  (app/state.py:36,40,44) where `core/logic.py` reads it with
  `.get("hierarquia", {})`. A missing hierarchy makes the copies raise, which is
  why StateCallbacks uses the Logic functions and requires the hierarchy to be
  loaded.

## Model

| member | source | states |
|---|---|---|
| Text.Strip | core/logic.py:43 | the stripped value has no leading or trailing white space; Text.StripMargins shows it is the input with only its white-space margins removed |
| Text.StripMargins | core/logic.py:43 | the stripped value is a stretch of the input with only white space on either side of it; with the trimmed ends this is exactly the input minus its white-space margins |
| Text.IndexOf | core/logic.py:25-26 | finds the first occurrence of the marker, or reports that there is none |
| Text.Split | core/logic.py:48 | every part is free of the separator and holds only characters of the input; there is at least one part; joining the parts with the separator gives back the input |
| Text.Join | app/state.py:277 | `sep.join` of no parts is `""`; Text.Split's round trip and the vibe round trip are its other partners |
| Text.SplitAfterAvoiding | core/logic.py:48 | a separator-free prefix joins the first part of the rest's split; the later parts are unchanged |
| Text.SplitAtSeparator | core/logic.py:48 | a leading separator yields an empty first part, followed by the split of the rest |
| Text.JoinAvoids | core/logic.py:48 | joining parts and a separator that avoid some characters gives text that avoids them |
| Text.StripLeadingSpace | core/logic.py:48 | stripping a space and a trimmed non-empty token gives the token |
| Text.RemoveAll | core/logic.py:47 | a character is in the result iff it is in the input and not removed; text with none of the removed characters is returned unchanged |
| Text.RemoveAllConcat | core/logic.py:47 | deleting characters distributes over concatenation, so the kept characters stay in their order |
| Text.LessTransitive | core/logic.py:22 | the code-point order `sorted` uses is transitive |
| Text.LessTotal | core/logic.py:22 | two distinct strings are ordered one way or the other |
| Logic.GetRitmosList | core/logic.py:5-8 | `[]` for a blank genre, an unknown genre or a missing hierarchy; otherwise one rhythm per item, the first component of each, in catalog order |
| Logic.GetStructureMap | core/logic.py:10-13 | `{}` in the same cases; otherwise the keys are exactly the genre's rhythms, and a rhythm maps to the structure of its last item |
| Logic.PairsToMapLastWins | core/logic.py:13 | in the dict comprehension, a rhythm listed twice keeps the structure of its last item |
| Logic.RhythmsAreStructureKeys | core/logic.py:5-13 | the keys of the structure map are the rhythm list, as a set |
| Logic.SuggestedStructure | app/callbacks.py:22-23 | a non-blank suggestion comes only from a known genre and a listed rhythm, and is the structure of that rhythm's last item |
| Logic.Insert | core/logic.py:22 | inserting into a strictly ascending list keeps it strictly ascending and adds exactly the new element |
| Logic.SortedList | core/logic.py:22 | `sorted(list(structures))` is strictly ascending and holds exactly the set's elements |
| Logic.GetAllUniqueStructures | core/logic.py:15-22 | strictly ascending, so no repeats; `s` is in it iff some item longer than one, under some genre, has `s` as its second component |
| Logic.UserSection | core/logic.py:25-26 | the text before the first marker, or the whole text when there is no marker; the result never holds the marker |
| Logic.ClosingQuote | core/logic.py:40-41 | the first `"` at or after a position, found only when no line break comes before it |
| Logic.SearchFrom | core/logic.py:40-41 | a found value is the capture at the leftmost match position from the start point; when nothing is found, no position matches |
| Logic.MatchAtFound | core/logic.py:40-41 | a capture has no quote and no line break, and the text holds `label: "capture"` literally |
| Logic.SearchFinds | core/logic.py:40-42 | the search finds a value iff the label is followed by `: "` and a closing `"` on the same line; the value is the capture at the leftmost match; what it finds is quote-free and line-break-free |
| Logic.StrippedTokensClean | core/logic.py:48 | the kept tokens are non-blank, trimmed, and contain no character that no part had |
| Logic.VibeTokens | core/logic.py:47-48 | every vibe token is non-blank and trimmed, and contains none of `[`, `]`, `'`, `"`, `,` |
| Logic.SplitCommaJoin | core/logic.py:48 | splitting comma-free tokens joined by `", "` at commas gives the first token and then each later one after a space |
| Logic.StrippedPadded | core/logic.py:48 | stripping space-prefixed clean tokens and dropping blanks gives the tokens back |
| Logic.JoinTrimmed | core/logic.py:43 | clean tokens joined by `", "` are non-blank and have no margin to strip |
| Logic.VibeTokensJoin | core/logic.py:47-48 | a non-empty list of clean tokens written `a, b, ...` reads back as the same list |
| Logic.RestoredVibeList | core/logic.py:43-48 | a vibe list written `a, b, ...` restores as that list, unless the written text means empty |
| Logic.Restored | core/logic.py:43-50 | the vibe field gives an empty list for a value that means empty, and otherwise the vibe tokens of the stripped capture; any other field gives `""` iff the stripped capture holds the placeholder, is `none` or is blank, and otherwise the stripped capture |
| Logic.LabelTableDistinct | core/logic.py:29-37 | the 14 labels map to 14 distinct fields |
| Logic.AssembleSpec | core/logic.py:39-51 | with distinct fields, the filled dict holds a field iff its row found a value, holds that value, and holds nothing else |
| Logic.RowValueSpec | core/logic.py:40-51 | a row finds a value iff its label has a quoted value on its line; the value is the restoration of the capture |
| Logic.FoundRows | core/logic.py:39-51 | over any table with distinct fields: only the table's fields are filled, each exactly when its label is quoted, with its restored capture |
| Logic.RestoreKeys | core/logic.py:29-51 | the result's keys are a subset of the 14 fields; a field is present iff its label is followed by a same-line quoted value in the user section; absent labels are skipped |
| Logic.RestoreValues | core/logic.py:43-50 | every restored value has its field's shape: clean vibe tokens, or a trimmed quote-free string that is either blank or neither the placeholder nor `none` |
| Logic.MarkerFollowsSection | core/logic.py:25-26 | for a marker-free prefix `p`, the user section of `p + marker + s` is `p` |
| Logic.RestoreIgnoresTail | core/logic.py:25-26 | the result depends only on the text before the first marker; what follows it changes nothing |
| Logic.AssembleStep | core/logic.py:39-51 | one more row of the table writes its found value, if any, over the previous rows' dict |
| Logic.FillRows | core/logic.py:39-51 | the label loop fills exactly the dict given by the table's rows, in order |
| Logic.ParsePromptForRestore | core/logic.py:24-53 | the method returns the restore function of the whole document |
| Selection.ItemCategory | app/state.py:225-229 | a name has a category iff some category lists it, and its category is one that lists it |
| Selection.ItemToCat | app/state.py:225-229 | the `item_to_cat` table holds exactly the listed names, each with the category that lists it last |
| Selection.NormalizeSelection | app/state.py:232-249 | the reversed walk with its seen-categories set yields the normalised selection |
| Selection.NormalizedElements | app/state.py:236-247 | the result holds only items of the input |
| Selection.NormalizedSubsequence | app/state.py:236-249 | the result is a subsequence of the input, with its order kept |
| Selection.NormalizedKeepsCategories | app/state.py:236-247 | every known category of the input is still represented |
| Selection.NormalizedOnePerCategory | app/state.py:232-243 | no two kept items share a known (non-blank) category |
| Selection.NormalizedKeepsLast | app/state.py:232-243 | a kept item of a known category is the last input item of that category |
| Selection.NormalizedKeepsUnknowns | app/state.py:237-247 | items with no known category, or with the blank category, all survive in order, repeats included |
| Selection.NormalizedIdempotent | app/state.py:236-249 | applying the rule twice gives the same as applying it once |
| Sampling.NonEmptyCats | app/state.py:91 | the positions of exactly the categories that have items |
| Sampling.HierChoice | app/state.py:91-94 | no draw iff every category is empty; otherwise a category name and one of its items |
| Sampling.HierUpdatesFrame | app/callbacks.py:79-80 | drawing the hierarchical fields changes no key outside their `_cat`/`_sel`/value triples |
| Sampling.SampledNonEmpty | app/state.py:269-274 | the sampled categories that have items, and no others |
| Sampling.SampledNonEmptyDistinct | app/state.py:263-264 | sampling without repetition gives distinct categories |
| Sampling.TagPicksSpec | app/state.py:266-274 | one name per sampled non-empty category, each an item of that category, in sampling order |
| Sampling.TagPicksAtMostFour | app/state.py:262-274 | a legal draw names at most four items |
| Sampling.DrawTags | app/state.py:266-274 | the loop builds exactly the drawn names |
| Sampling.TruthyItems | app/state.py:111 | exactly the non-empty items |
| Sampling.ValidCats | app/state.py:107 | the positions of exactly the categories with a non-empty item |
| Sampling.VibeDrawSpec | app/state.py:108-115 | the drawn list has no repeats, at most one entry per round, and only non-empty catalog items |
| Sampling.VibeResultSpec | app/state.py:104-115 | `[]` when no category has a non-empty item; otherwise at most five distinct non-empty catalog items |
| Sampling.VibeDrawStep | app/state.py:109-115 | each round appends its item to the previous rounds' list unless it is already there |
| Sampling.DrawVibes | app/state.py:106-115 | the generator loop, from an emptied list, gives the specified vibe list |
| Edits.AppendAbsent | app/state.py:202-203 | appending only when absent keeps the list free of repeats; it adds exactly the value and keeps the old list as a prefix |
| Edits.RemoveAt | app/state.py:209 | `pop` drops exactly one position and shifts the rest down |
| Edits.RemoveAtMultiset | app/state.py:209 | the removed element plus the rest is the old list's multiset |
| Edits.RemoveAtDistinct | app/state.py:207-209 | removing from a duplicate-free list keeps it duplicate-free and drops exactly that value |
| Edits.AppendTag | app/state.py:196-198 | the result is `tag` when the line was empty, otherwise the old line, a space and `tag` |
| Edits.AppendTagsAfter | app/state.py:198 | clicking tags onto a non-empty line appends them space-joined |
| Edits.AppendTagsJoin | app/state.py:198 | clicking non-empty tags onto an empty line gives them joined by single spaces |
| StateOps.ClearDefaultsSpec | app/state.py:69-75 | every default key but `history` is written with its empty value (`[]` for the vibe list); other keys keep theirs |
| StateOps.ClearTriplesAt | app/state.py:78-81 | a key is in the result iff it was before or belongs to a listed triple; triple keys become `""`, and the others keep their values |
| StateOps.ClearTriplesSpec | app/state.py:78-81 | the same, for every key |
| StateOps.ClearAllSpec | app/state.py:67-88 | `show_prompt` ends false; the triples are `""`; the other defaults but `history` are reset; every other key keeps its value; no other key appears |
| StateOps.ClearAllUntouched | app/state.py:67-88 | a key that is neither reset nor blanked keeps its value, or stays absent |
| StateOps.ClearAllResets | app/state.py:69-75 | a default key outside the triples ends with its empty value |
| StateOps.ClearAllBlanksVibeInput | app/state.py:86-88 | in the variant that blanks it, `new_vibe_input` ends `""` |
| StateOps.ClearCatSelAt | app/state.py:190-192 | the pickers' `_cat`/`_sel` keys become `""`; the other keys keep their values |
| StateOps.ClearCatSelSpec | app/state.py:190-192 | the same, for every key |
| StateOps.RestoredStateSpec | app/callbacks.py:103-107 | `show_prompt` ends false; the `_cat`/`_sel` keys are `""`; the parsed keys hold their parsed values; every other key is unchanged; nothing else appears |
| StateOps.CategorizedPicksSpec | app/state.py:299-308 | each pick is the name of one of the section's chosen selectboxes, and each chosen selectbox contributes its name |
| StateOps.NoPicks | app/state.py:299-308 | with no chosen selectbox there are no picks |
| StateOps.ManualKeyNotPicker | app/state.py:300-322 | the manual-input key is never one of the section's selectbox keys |
| StateOps.ClearedSelectboxes | app/state.py:324-327 | after clearing, every selectbox of the section holds nothing |
| StateOps.ClearedManualInput | app/state.py:320-322 | after clearing, the manual input, when present, is blank |
| StateOps.ClearThenUpdate | app/state.py:287-330 | rebuilding a section's list right after clearing it gives `[]`, in any key order |
| StateCallbacks.OnGeneroChange | app/state.py:51-52 | `ritmo` becomes `""` and nothing else changes |
| StateCallbacks.OnRitmoChange | app/state.py:54-61 | when genre and rhythm are set and the rhythm suggests a structure, both structure fields take it; otherwise nothing changes |
| StateCallbacks.OnEstruturaSelChange | app/state.py:63-65 | a non-empty `estrutura_sel` is copied into `estrutura`; otherwise nothing changes |
| StateCallbacks.ClearAll | app/state.py:67-88 | the state becomes the clear-all state of the 23 defaults and the 3 hierarchical keys, with the new-vibe input blanked |
| StateCallbacks.HierKeysApart | app/state.py:6 | no hierarchical key or companion is `history`, `show_prompt` or the vibe list |
| StateCallbacks.DefaultKeysListed | app/state.py:7-21 | the defaults name `history`, `show_prompt`, the vibe list, `new_vibe_input` and `tom_manual_input` |
| StateCallbacks.ClearAllKeepsHistory | app/state.py:67-88 | `history` is unchanged, `show_prompt` is false and the vibe list is `[]` |
| StateCallbacks.ClearAllEmptiesVibeInput | app/state.py:86-88 | `new_vibe_input` ends `""` |
| StateCallbacks.ClearAllBlanksManualTone | app/state.py:67-75 | unlike the refactored version, `tom_manual_input` ends `""` |
| StateCallbacks.ClearAllBlanks | app/state.py:67-88 | every hierarchical triple, and every default but the history, the flag and the vibe list, is `""` |
| StateCallbacks.RandomizeHier | app/state.py:90-97 | when a draw exists, `key_cat` is its category and `key_sel` and `key` are its item; otherwise nothing changes |
| StateCallbacks.RandomizeTags | app/state.py:251-277 | no change for an empty catalog; otherwise `key` is the `", "`-join of the drawn names |
| StateCallbacks.RandomVibeGenerator | app/state.py:104-115 | only the vibe list changes, to the drawn list |
| StateCallbacks.AddVibeClick | app/state.py:200-205 | the list is created if missing; the vibe is appended unless present; nothing else changes |
| StateCallbacks.DeleteVibe | app/state.py:207-209 | when `len > index`, exactly the element at `index` (negative from the end) is removed; otherwise nothing changes |
| StateCallbacks.SubmitManualVibe | app/state.py:211-215 | a blank typed vibe changes nothing; otherwise the stripped vibe is appended unless present, and the input box is kept |
| StateCallbacks.AddTagToStructure | app/state.py:196-198 | only `estrutura` changes, to the line with the tag appended |
| StateCallbacks.HandleTagSelection | app/state.py:217-249 | only `key` changes, to the one-item-per-category selection |
| StateCallbacks.UpdateCategorizedSelection | app/state.py:287-316 | only the main key changes, to the chosen selectbox names in key order, plus the stripped manual input when it is not blank |
| StateCallbacks.ClearCategorizedCallback | app/state.py:318-330 | the manual input is blanked when present, every prefixed selectbox is reset to nothing, and the main list becomes `[]` |
| StateCallbacks.WriteRows | app/state.py:176-188 | the label loop writes each found field over the old state, and nothing else |
| StateCallbacks.CallbackRestaurar | app/state.py:162-194 | the state becomes the restored state of the parsed document with the 3 hierarchical keys |
| Callbacks.OnRitmoChange | app/callbacks.py:19-25 | when genre and rhythm are set and a structure is suggested, both structure fields take it; otherwise nothing changes |
| Callbacks.NoHierarchyNoSuggestion | app/callbacks.py:19-25 | without a loaded hierarchy nothing is suggested; a suggestion needs a listed genre and rhythm |
| Callbacks.ClearAll | app/callbacks.py:31-37 | the state becomes the clear-all state of the 17 defaults and the 5 hierarchical keys, without blanking the new-vibe input separately |
| Callbacks.HierKeysApart | core/config.py:9 | no hierarchical key or companion is `history`, `show_prompt` or the vibe list |
| Callbacks.DefaultKeysListed | core/config.py:12-20 | the defaults name `history`, `show_prompt`, the vibe list and `new_vibe_input` |
| Callbacks.ClearAllKeepsHistory | app/callbacks.py:31-37 | `history` is unchanged, `show_prompt` is false and the vibe list is `[]` |
| Callbacks.ClearAllBlanks | app/callbacks.py:31-37 | the five triples, and every default but the history, the flag and the vibe list, are `""` |
| Callbacks.ClearAllKeepsManualTone | app/callbacks.py:31-37 | unlike the single-file version, `tom_manual_input` keeps its value |
| Callbacks.ManualToneApart | core/config.py:9-20 | `tom_manual_input` is no default key and in no hierarchical triple |
| Callbacks.ClearHierCallback | app/callbacks.py:48-49 | the field and its `_cat`/`_sel` companions become `""` |
| Callbacks.ClearHierOnly | app/callbacks.py:48-49 | exactly the triple is blanked; every other key keeps its value |
| Callbacks.RandomVibeGenerator | app/callbacks.py:51-62 | only the vibe list changes, to the list drawn from the vibe catalog, which reads as empty when missing |
| Callbacks.NoVibeCatalogEmpties | app/callbacks.py:52-55 | without a vibe catalog the list ends `[]` |
| Callbacks.RandomizeStructCallback | app/callbacks.py:64-67 | when the hierarchy lists any structure, both structure fields take the drawn one; otherwise nothing changes |
| Callbacks.PickGenre | app/callbacks.py:70-78 | the genre step: a listed genre and, when it has items, one item's rhythm and structure |
| Callbacks.RandomizeEach | app/callbacks.py:79-80 | each hierarchical field is drawn from its own catalog, in turn |
| Callbacks.RandomAll | app/callbacks.py:69-81 | the genre step, then each hierarchical field, then the vibes |
| Callbacks.RandomAllConsistent | app/callbacks.py:69-81 | a non-empty hierarchy gives a listed genre; a genre with items gives `ritmo`/`estrutura` from one item, with `estrutura == estrutura_sel`; the vibes are the drawn list |
| Callbacks.RandomAllStructureListed | app/callbacks.py:74-78 | the structure drawn is one of the hierarchy's structures |
| Callbacks.AddVibeClick | app/callbacks.py:87-91 | the vibe is appended unless present, so no duplicate is created; nothing else changes |
| Callbacks.SubmitManualVibe | app/callbacks.py:97-101 | a blank vibe changes nothing; otherwise the stripped vibe is appended unless present and the input box is emptied |
| Callbacks.SubmitTwiceOnce | app/callbacks.py:97-101 | after one submit the box reads as blank, so a second submit adds nothing |
| Callbacks.WriteAll | app/callbacks.py:105 | writing the parsed dict overrides those keys and keeps the rest |
| Callbacks.CallbackRestaurar | app/callbacks.py:103-107 | the state becomes the restored state of the parsed document with the 5 hierarchical keys |

## Left out

- `init_session_state` (app/state.py:23-32, app/callbacks.py:8-14) only fills missing keys at start-up. The callbacks' `requires` state which keys they expect instead.
- `random_all` of app/state.py:117-153 is not modelled; only the refactored `random_all` is. The old one also calls `randomize_tags_callback` for tone, influence and vocals, and that randomiser is modelled on its own.
- `clear_tags_callback` (app/state.py:279-285) is not modelled.
- `randomize_struct_callback` of app/state.py:155-160 is covered only through its app/callbacks.py twin. The app/state.py version raises when the hierarchy is missing.
- `st.toast`, the Streamlit widgets, the loading of the dataset files and the document generator are UI and I/O, and are left out.
- Randomness: draws are oracle arguments restricted to their legal ranges. Distributions are not modelled.
- Python's duck typing: hierarchical and vibe catalog items are strings; tag items are `[name, description]` pairs; rhythm items are string lists. The IndexError, KeyError and TypeError paths of malformed data are excluded by `requires`.
- StateCallbacks.DeleteVibe: requires `index >= -len` whenever `len > index`, which excludes the indices where `list.pop` would raise IndexError. An index at or beyond the length is a no-op, as in the source. Every call site passes an index from `enumerate`, which is always in range.
- StateCallbacks.HandleTagSelection requires the selection to be a list. The source would iterate a string character by character.
- In-place list mutation and aliasing: each `append`, `pop` or `insert` on a session list is modelled as storing a new list under the key. In the source, both `init_session_state` copies (app/state.py:25-27, app/callbacks.py:9-10) install the module-level `STATE_DEFAULTS` list objects themselves, for `vibe_emocional` and `history` (app/state.py:10,13; core/config.py:15,18). The in-place edits (app/state.py:115,203,209,215; app/callbacks.py:62,89,95,100; app/main.py:52) therefore also change the shared default, until `clear_all` or `random_vibe_generator` stores a fresh list. A later session started in the same process then begins with the filled list. This sharing across sessions is not modelled. Within one session the callbacks read only the keys of `STATE_DEFAULTS`, so it does not affect them.
- Dict iteration order: the catalogs are ordered sequences. In `update_categorized_selection` the session's key order is a parameter, `order`.
- `str.lower() == "none"` is compared ASCII-case-insensitively. No other code point lowers to `n`, `o` or `e`.
- Regular expressions: only the one pattern shape `label: "(.*?)"` is modelled, as a substring search.

