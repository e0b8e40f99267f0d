/**
 * Character records as the character endpoints return them, and the
 * selections the character modal and the character helpers make from them:
 * roles by exact tag and voice actors by exact language
 * (src/components/CharacterModal.jsx, src/characterExamples.js).
 */
module CharacterData {
  import opened Results
  import opened Seqs
  import opened Catalog

  datatype Person = Person(malId: Option<int>, name: Option<string>)

  /** A character: `favorites` is the popularity count; `images` may be missing. */
  datatype Character = Character(malId: Option<int>, name: Option<string>, favorites: int, images: Option<Images>)

  /** One element of `/characters/{id}/anime`: the role tag and the anime it is played in. */
  datatype RoleEntry = RoleEntry(role: string, anime: Anime)

  /** One element of `/characters/{id}/voices`. */
  datatype Voice = Voice(language: string, person: Person)

  predicate IsMain(e: RoleEntry) { e.role == "Main" }

  predicate IsSupporting(e: RoleEntry) { e.role == "Supporting" }

  predicate IsJapanese(v: Voice) { v.language == "Japanese" }

  predicate IsEnglish(v: Voice) { v.language == "English" }

  /** The residue the modal lists after the Japanese and English cards. */
  predicate IsOtherLanguage(v: Voice) { v.language != "Japanese" && v.language != "English" }

  /** `animeList.filter(a => a.role === 'Main')`. */
  function MainRoles(list: seq<RoleEntry>): (r: seq<RoleEntry>)
    ensures forall i :: 0 <= i < |r| ==> IsMain(r[i]) && r[i] in list
    ensures forall i :: 0 <= i < |list| && IsMain(list[i]) ==> list[i] in r
  {
    Filter(IsMain, list)
  }

  /** `animeList.filter(a => a.role === 'Supporting')`. */
  function SupportingRoles(list: seq<RoleEntry>): (r: seq<RoleEntry>)
    ensures forall i :: 0 <= i < |r| ==> IsSupporting(r[i]) && r[i] in list
    ensures forall i :: 0 <= i < |list| && IsSupporting(list[i]) ==> list[i] in r
  {
    Filter(IsSupporting, list)
  }

  /**
   * Main and supporting roles are order-preserving selections of the list,
   * they never overlap, so their lengths add up to at most the list's; an
   * entry of the list is among the main roles exactly when it is tagged
   * "Main", among the supporting roles exactly when tagged "Supporting",
   * and an entry with any other tag is in neither.
   */
  lemma {:induction false} RolesPartition(list: seq<RoleEntry>)
    ensures IsSubsequence(MainRoles(list), list) && IsSubsequence(SupportingRoles(list), list)
    ensures |MainRoles(list)| + |SupportingRoles(list)| <= |list|
    ensures forall e :: e in list && !IsMain(e) && !IsSupporting(e) ==> e !in MainRoles(list) && e !in SupportingRoles(list)
    ensures forall e :: e in list ==> (e in MainRoles(list) <==> IsMain(e))
    ensures forall e :: e in list ==> (e in SupportingRoles(list) <==> IsSupporting(e))
  {
    FilterIsSubsequence(IsMain, list);
    FilterIsSubsequence(IsSupporting, list);
    var other := (e: RoleEntry) => !IsMain(e) && !IsSupporting(e);
    FilterPartition(IsMain, IsSupporting, other, list);
  }

  /** `voiceActors.find(v => v.language === 'Japanese')`. */
  function JapaneseVA(voices: seq<Voice>): (r: Option<Voice>)
    ensures r.None? <==> forall i :: 0 <= i < |voices| ==> !IsJapanese(voices[i])
    ensures r.Some? ==> exists i :: 0 <= i < |voices| && voices[i] == r.value && IsJapanese(voices[i]) &&
                           forall j :: 0 <= j < i ==> !IsJapanese(voices[j])
  {
    First(IsJapanese, voices)
  }

  /** `voiceActors.find(v => v.language === 'English')`. */
  function EnglishVA(voices: seq<Voice>): (r: Option<Voice>)
    ensures r.None? <==> forall i :: 0 <= i < |voices| ==> !IsEnglish(voices[i])
    ensures r.Some? ==> exists i :: 0 <= i < |voices| && voices[i] == r.value && IsEnglish(voices[i]) &&
                           forall j :: 0 <= j < i ==> !IsEnglish(voices[j])
  {
    First(IsEnglish, voices)
  }

  /** The voices in neither featured language, in order. */
  function OtherLanguages(voices: seq<Voice>): (r: seq<Voice>)
    ensures forall i :: 0 <= i < |r| ==> IsOtherLanguage(r[i]) && r[i] in voices
    ensures forall i :: 0 <= i < |voices| && IsOtherLanguage(voices[i]) ==> voices[i] in r
  {
    Filter(IsOtherLanguage, voices)
  }

  /** Every voice is Japanese, English or other, exactly once. */
  lemma VoicesPartition(voices: seq<Voice>)
    ensures Count(IsJapanese, voices) + Count(IsEnglish, voices) + |OtherLanguages(voices)| == |voices|
  {
    FilterPartition(IsJapanese, IsEnglish, IsOtherLanguage, voices);
  }

  /** `voices.some(v => v.language === lang)` agrees with the modal's `find`. */
  lemma FindAgreesWithSome(voices: seq<Voice>)
    ensures JapaneseVA(voices).Some? <==> Any(IsJapanese, voices)
    ensures EnglishVA(voices).Some? <==> Any(IsEnglish, voices)
  {
  }
}
