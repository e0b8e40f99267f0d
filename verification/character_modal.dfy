/**
 * The state of the character modal (src/components/CharacterModal.jsx): the
 * character, its anime roles and its voice actors, loaded together from three
 * requests when a character id is set and cleared when it is not.
 */
module CharacterModal {
  import opened Results
  import opened JsValues
  import opened Seqs
  import opened CharacterData

  /** `character` is null until loaded (or undefined when the response had no `data`). */
  datatype Modal = Modal(character: Option<Character>, animeList: seq<RoleEntry>, voiceActors: seq<Voice>, loading: bool)

  const Initial: Modal := Modal(None, [], [], false)

  /** What the effect on `characterId` does before any response arrives. */
  function OnCharacterId(m: Modal, characterId: JsVal): (m': Modal)
    ensures Truthy(characterId) ==> m' == m.(loading := true)
    ensures !Truthy(characterId) ==> m'.character.None? && m'.animeList == [] && m'.voiceActors == [] && m'.loading == m.loading
  {
    if Truthy(characterId) then m.(loading := true)
    else Modal(None, [], [], m.loading)
  }

  /**
   * The settled `Promise.all`: on three successes the state takes the
   * character (`data`, possibly missing) and both lists (missing `data` is
   * an empty list); any failure keeps all three as they were. Loading ends
   * either way.
   */
  function Loaded(m: Modal, character: Result<Option<Character>>, anime: Result<Option<seq<RoleEntry>>>,
                  voices: Result<Option<seq<Voice>>>): (m': Modal)
    ensures !m'.loading
    ensures character.Success? && anime.Success? && voices.Success? ==>
              m'.character == character.value && m'.animeList == anime.value.GetOr([]) &&
              m'.voiceActors == voices.value.GetOr([])
    ensures character.Failure? || anime.Failure? || voices.Failure? ==> m' == m.(loading := false)
  {
    if character.Success? && anime.Success? && voices.Success? then
      Modal(character.value, anime.value.GetOr([]), voices.value.GetOr([]), false)
    else m.(loading := false)
  }

  /**
   * All or nothing: after a load, either all three fields come from the
   * responses or none does; a partial update never shows.
   */
  lemma LoadAllOrNothing(m: Modal, c: Result<Option<Character>>, a: Result<Option<seq<RoleEntry>>>,
                         v: Result<Option<seq<Voice>>>)
    ensures var m' := Loaded(m, c, a, v);
            (m'.character == m.character && m'.animeList == m.animeList && m'.voiceActors == m.voiceActors) ||
            (c.Success? && a.Success? && v.Success? && m'.character == c.value &&
             m'.animeList == a.value.GetOr([]) && m'.voiceActors == v.value.GetOr([]))
  {
  }

  /** Clearing the id resets the modal's data whatever it held; only the loading flag survives. */
  lemma ClearResets(m: Modal, id: JsVal)
    requires id in {Undefined, Null, Num(0), Str(""), Bool(false)}
    ensures OnCharacterId(m, id) == Initial.(loading := m.loading)
  {
  }

  /**
   * What the open modal shows from its state: the main and supporting
   * roles, the first Japanese and the first English voice actor, and every
   * other voice below them.
   */
  datatype Shown = Shown(main: seq<RoleEntry>, supporting: seq<RoleEntry>, japanese: Option<Voice>,
                         english: Option<Voice>, others: seq<Voice>)

  function Show(m: Modal): (s: Shown)
    ensures |s.main| + |s.supporting| <= |m.animeList|
    ensures s.japanese.Some? ==> s.japanese.value in m.voiceActors && IsJapanese(s.japanese.value)
    ensures s.english.Some? ==> s.english.value in m.voiceActors && IsEnglish(s.english.value)
  {
    RolesPartition(m.animeList);
    Shown(MainRoles(m.animeList), SupportingRoles(m.animeList), JapaneseVA(m.voiceActors),
          EnglishVA(m.voiceActors), OtherLanguages(m.voiceActors))
  }

  /**
   * The voice list below the featured cards holds exactly the voices in
   * neither featured language, and with the Japanese and English voices it
   * accounts for every voice actor of the character.
   */
  lemma ShownVoicesAccount(m: Modal)
    ensures var s := Show(m);
            (forall v :: v in m.voiceActors ==> (v in s.others <==> IsOtherLanguage(v))) &&
            Count(IsJapanese, m.voiceActors) + Count(IsEnglish, m.voiceActors) + |s.others| == |m.voiceActors|
  {
    VoicesPartition(m.voiceActors);
  }
}
