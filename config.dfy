/** The session keys and defaults the refactored callbacks share. */
module Config {
  import opened Session

  /** The fields picked through a category -> item pair of dropdowns. */
  const HierKeys: seq<string> := ["publico", "tom", "tipo_de_gravacao", "influencia_estetica", "narrador"]

  /** Every session key with its initial value, in declaration order. */
  const StateDefaults: seq<(string, Value)> := [
    ("genero", Str("")), ("ritmo", Str("")), ("idioma", Str("")), ("tema", Str("")),
    ("mensagem", Str("")), ("palavras_chave", Str("")), ("referencia", Str("")),
    ("vibe_emocional", Lst([])), ("vibe_cat", Str("")), ("vibe_item", Str("")), ("vibe_manual", Str("")),
    ("prompt_final", Str("")), ("show_prompt", Bool(false)),
    ("estrutura", Str("")), ("estrutura_sel", Str("")),
    ("history", History([])),
    ("new_vibe_input", Str(""))
  ]
}
