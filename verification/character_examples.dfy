/**
 * The character helpers of src/characterExamples.js. Each awaits one or more
 * endpoints and turns any thrown error into a fixed fallback (null or []).
 * A response is an input: `Failure` for a rejected request, `Success(None)`
 * when the body has no `data` field, `Success(Some(d))` otherwise. Reading a
 * field of a missing `data` throws in the source and so yields the fallback.
 */
module CharacterExamples {
  import opened Results
  import opened Text
  import opened JsValues
  import opened Seqs
  import opened Catalog
  import opened Api
  import opened CharacterData

  type Response<T> = Result<Option<T>>

  /** The value of a response whose body carried `data`; None stands for any thrown error. */
  function DataOf<T>(r: Response<T>): (d: Option<T>)
    ensures d.Some? <==> r.Success? && r.value.Some?
  {
    if r.Success? then r.value else None
  }

  // ---------------------------------------------------------------------------
  // buildCharacterProfile and getCharacterStats
  // ---------------------------------------------------------------------------

  datatype ProfileStats = ProfileStats(totalAppearances: nat, mainRoles: nat, supportingRoles: nat, voiceActorCount: nat)

  datatype Profile = Profile(
    id: Option<int>,
    name: Option<string>,
    favorites: int,
    image: Option<string>,
    animeAppearances: seq<RoleEntry>,
    voiceActors: seq<Voice>,
    pictures: Option<seq<Images>>,
    stats: ProfileStats)

  /** `character.data.images.webp.image_url`: throws (None) when `images` or `webp` is missing. */
  function ProfileImage(c: Character): Option<Option<string>>
  {
    if c.images.Some? && c.images.value.webp.Some? then Some(c.images.value.webp.value.imageUrl) else None
  }

  /**
   * `buildCharacterProfile`: null unless all four requests succeed and the
   * character, its image record, its anime and its voices are present; the
   * pictures may lack `data` without harm.
   */
  function BuildCharacterProfile(character: Response<Character>, anime: Response<seq<RoleEntry>>,
                                 voices: Response<seq<Voice>>, pictures: Response<seq<Images>>): (r: Option<Profile>)
    ensures r.Some? <==> DataOf(character).Some? && ProfileImage(DataOf(character).value).Some? &&
                         DataOf(anime).Some? && DataOf(voices).Some? && pictures.Success?
    ensures r.Some? ==> r.value.animeAppearances == DataOf(anime).value && r.value.voiceActors == DataOf(voices).value
    ensures r.Some? ==> r.value.stats.totalAppearances == |r.value.animeAppearances| &&
                        r.value.stats.voiceActorCount == |r.value.voiceActors|
    ensures r.Some? ==> r.value.stats.mainRoles == |MainRoles(r.value.animeAppearances)| &&
                        r.value.stats.supportingRoles == |SupportingRoles(r.value.animeAppearances)|
  {
    if !(DataOf(character).Some? && ProfileImage(DataOf(character).value).Some? &&
         DataOf(anime).Some? && DataOf(voices).Some? && pictures.Success?) then None
    else
      var c := DataOf(character).value;
      var a := DataOf(anime).value;
      var v := DataOf(voices).value;
      Some(Profile(c.malId, c.name, c.favorites, ProfileImage(c).value, a, v, pictures.value,
                   ProfileStats(|a|, Count(IsMain, a), Count(IsSupporting, a), |v|)))
  }

  /** The profile's counts are consistent: main and supporting roles never exceed the appearances. */
  lemma ProfileStatsBounded(character: Response<Character>, anime: Response<seq<RoleEntry>>,
                            voices: Response<seq<Voice>>, pictures: Response<seq<Images>>)
    requires BuildCharacterProfile(character, anime, voices, pictures).Some?
    ensures var st := BuildCharacterProfile(character, anime, voices, pictures).value.stats;
            st.mainRoles + st.supportingRoles <= st.totalAppearances
  {
    RolesPartition(DataOf(anime).value);
  }

  datatype CharacterStats = CharacterStats(
    name: Option<string>,
    favorites: int,
    totalAnime: nat,
    mainRoles: nat,
    supportingRoles: nat,
    voiceActors: nat,
    hasJapaneseVA: bool,
    hasEnglishVA: bool)

  /** `getCharacterStats`: null unless the three requests succeed with `data`. */
  function GetCharacterStats(character: Response<Character>, anime: Response<seq<RoleEntry>>,
                             voices: Response<seq<Voice>>): (r: Option<CharacterStats>)
    ensures r.Some? <==> DataOf(character).Some? && DataOf(anime).Some? && DataOf(voices).Some?
    ensures r.Some? ==> r.value.totalAnime == |DataOf(anime).value| && r.value.voiceActors == |DataOf(voices).value|
    ensures r.Some? ==> (r.value.hasJapaneseVA <==> exists i :: 0 <= i < |DataOf(voices).value| &&
                                                            DataOf(voices).value[i].language == "Japanese")
    ensures r.Some? ==> (r.value.hasEnglishVA <==> exists i :: 0 <= i < |DataOf(voices).value| &&
                                                           DataOf(voices).value[i].language == "English")
  {
    if !(DataOf(character).Some? && DataOf(anime).Some? && DataOf(voices).Some?) then None
    else
      var c := DataOf(character).value;
      var a := DataOf(anime).value;
      var v := DataOf(voices).value;
      Some(CharacterStats(c.name, c.favorites, |a|, Count(IsMain, a), Count(IsSupporting, a), |v|,
                          Any(IsJapanese, v), Any(IsEnglish, v)))
  }

  /**
   * Whenever both helpers succeed on the same responses, their counts agree,
   * and the stats' `hasJapaneseVA`/`hasEnglishVA` flags say exactly whether
   * the modal would find a Japanese/English voice actor.
   */
  lemma StatsAgreeWithProfile(character: Response<Character>, anime: Response<seq<RoleEntry>>,
                              voices: Response<seq<Voice>>, pictures: Response<seq<Images>>)
    requires BuildCharacterProfile(character, anime, voices, pictures).Some?
    ensures GetCharacterStats(character, anime, voices).Some?
    ensures var p := BuildCharacterProfile(character, anime, voices, pictures).value.stats;
            var s := GetCharacterStats(character, anime, voices).value;
            s.totalAnime == p.totalAppearances && s.mainRoles == p.mainRoles &&
            s.supportingRoles == p.supportingRoles && s.voiceActors == p.voiceActorCount
    ensures var s := GetCharacterStats(character, anime, voices).value;
            (s.hasJapaneseVA <==> JapaneseVA(DataOf(voices).value).Some?) &&
            (s.hasEnglishVA <==> EnglishVA(DataOf(voices).value).Some?)
  {
    FindAgreesWithSome(DataOf(voices).value);
  }

  // ---------------------------------------------------------------------------
  // Role helpers and voice-actor lookups
  // ---------------------------------------------------------------------------

  function AnimeOf(e: RoleEntry): Anime { e.anime }

  /** `getCharacterMainRoles`: the anime of the main roles in order, or [] on any error. */
  function CharacterMainRoles(anime: Response<seq<RoleEntry>>): (r: seq<Anime>)
    ensures DataOf(anime).None? ==> r == []
    ensures DataOf(anime).Some? ==>
              |r| == |MainRoles(DataOf(anime).value)| &&
              forall i :: 0 <= i < |r| ==> r[i] == MainRoles(DataOf(anime).value)[i].anime
  {
    if DataOf(anime).Some? then Map(AnimeOf, MainRoles(DataOf(anime).value)) else []
  }

  /** `getCharacterSupportingRoles`: the anime of the supporting roles in order, or [] on any error. */
  function CharacterSupportingRoles(anime: Response<seq<RoleEntry>>): (r: seq<Anime>)
    ensures DataOf(anime).None? ==> r == []
    ensures DataOf(anime).Some? ==>
              |r| == |SupportingRoles(DataOf(anime).value)| &&
              forall i :: 0 <= i < |r| ==> r[i] == SupportingRoles(DataOf(anime).value)[i].anime
  {
    if DataOf(anime).Some? then Map(AnimeOf, SupportingRoles(DataOf(anime).value)) else []
  }

  /**
   * An anime is in a role filter's projection exactly when some entry of
   * the list with a kept role plays it.
   */
  lemma ProjectedRoles(p: RoleEntry -> bool, list: seq<RoleEntry>)
    ensures forall a :: a in Map(AnimeOf, Filter(p, list)) <==> exists e :: e in list && p(e) && e.anime == a
  {
    var f := Filter(p, list);
    var m := Map(AnimeOf, f);
    forall a ensures a in m <==> exists e :: e in list && p(e) && e.anime == a {
      if a in m {
        var i :| 0 <= i < |m| && m[i] == a;
        assert f[i] in list && p(f[i]) && f[i].anime == a;
      }
      if exists e :: e in list && p(e) && e.anime == a {
        var e :| e in list && p(e) && e.anime == a;
        var k :| 0 <= k < |list| && list[k] == e;
        assert e in f;
        var idx :| 0 <= idx < |f| && f[idx] == e;
        assert m[idx] == a;
      }
    }
  }

  /**
   * The role helpers project exactly the anime of entries with that tag, in
   * the response order: an anime is returned exactly when it is played in a
   * role with that tag, and the results are a selection of the response's
   * anime keeping their order.
   */
  lemma RoleHelpersSelect(list: seq<RoleEntry>)
    ensures forall a :: a in CharacterMainRoles(Success(Some(list))) <==>
              exists e :: e in list && IsMain(e) && e.anime == a
    ensures forall a :: a in CharacterSupportingRoles(Success(Some(list))) <==>
              exists e :: e in list && IsSupporting(e) && e.anime == a
    ensures IsSubsequence(CharacterMainRoles(Success(Some(list))), Map(AnimeOf, list))
    ensures IsSubsequence(CharacterSupportingRoles(Success(Some(list))), Map(AnimeOf, list))
  {
    assert CharacterMainRoles(Success(Some(list))) == Map(AnimeOf, Filter(IsMain, list));
    ProjectedRoles(IsMain, list);
    FilterIsSubsequence(IsMain, list);
    MapSubsequence(AnimeOf, Filter(IsMain, list), list);
    assert CharacterSupportingRoles(Success(Some(list))) == Map(AnimeOf, Filter(IsSupporting, list));
    ProjectedRoles(IsSupporting, list);
    FilterIsSubsequence(IsSupporting, list);
    MapSubsequence(AnimeOf, Filter(IsSupporting, list), list);
  }

  /** `getJapaneseVoiceActor`: the person of the first Japanese voice, or null. */
  function JapaneseVoiceActor(voices: Response<seq<Voice>>): (r: Option<Person>)
    ensures DataOf(voices).None? ==> r.None?
    ensures DataOf(voices).Some? ==> (r.Some? <==> Any(IsJapanese, DataOf(voices).value))
    ensures r.Some? ==> var vs := DataOf(voices).value;
              exists i :: 0 <= i < |vs| && IsJapanese(vs[i]) && vs[i].person == r.value &&
                          forall j :: 0 <= j < i ==> !IsJapanese(vs[j])
  {
    if DataOf(voices).Some? && JapaneseVA(DataOf(voices).value).Some? then
      Some(JapaneseVA(DataOf(voices).value).value.person)
    else None
  }

  /** `getEnglishVoiceActor`: the person of the first English voice, or null. */
  function EnglishVoiceActor(voices: Response<seq<Voice>>): (r: Option<Person>)
    ensures DataOf(voices).None? ==> r.None?
    ensures DataOf(voices).Some? ==> (r.Some? <==> Any(IsEnglish, DataOf(voices).value))
    ensures r.Some? ==> var vs := DataOf(voices).value;
              exists i :: 0 <= i < |vs| && IsEnglish(vs[i]) && vs[i].person == r.value &&
                          forall j :: 0 <= j < i ==> !IsEnglish(vs[j])
  {
    if DataOf(voices).Some? && EnglishVA(DataOf(voices).value).Some? then
      Some(EnglishVA(DataOf(voices).value).value.person)
    else None
  }

  // ---------------------------------------------------------------------------
  // compareCharacterPopularity
  // ---------------------------------------------------------------------------

  datatype Comparison = Comparison(name1: Option<string>, favorites1: int, name2: Option<string>, favorites2: int,
                                   morePopular: Option<string>, difference: nat)

  function Abs(x: int): nat { if x < 0 then -x else x }

  /** `compareCharacterPopularity`: null unless both requests succeed with `data`. */
  function ComparePopularity(c1: Response<Character>, c2: Response<Character>): (r: Option<Comparison>)
    ensures r.Some? <==> DataOf(c1).Some? && DataOf(c2).Some?
    ensures r.Some? ==> r.value.difference == Abs(r.value.favorites1 - r.value.favorites2)
    ensures r.Some? ==> r.value.favorites1 == DataOf(c1).value.favorites && r.value.favorites2 == DataOf(c2).value.favorites
    ensures r.Some? ==> r.value.morePopular == (if r.value.favorites1 > r.value.favorites2 then r.value.name1 else r.value.name2)
  {
    if DataOf(c1).Some? && DataOf(c2).Some? then
      var a := DataOf(c1).value;
      var b := DataOf(c2).value;
      Some(Comparison(a.name, a.favorites, b.name, b.favorites,
                      if a.favorites > b.favorites then a.name else b.name, Abs(a.favorites - b.favorites)))
    else None
  }

  /**
   * Swapping the two characters keeps the difference and, unless they tie,
   * names the same character; a tie always names the second one.
   */
  lemma CompareSymmetry(a: Character, b: Character)
    ensures var r := ComparePopularity(Success(Some(a)), Success(Some(b))).value;
            var s := ComparePopularity(Success(Some(b)), Success(Some(a))).value;
            r.difference == s.difference &&
            (a.favorites != b.favorites ==> r.morePopular == s.morePopular) &&
            (a.favorites == b.favorites ==> r.morePopular == b.name && s.morePopular == a.name && r.difference == 0)
    ensures var r := ComparePopularity(Success(Some(a)), Success(Some(b))).value;
            r.morePopular == (if a.favorites > b.favorites then a.name else b.name)
  {
  }

  // ---------------------------------------------------------------------------
  // getCharactersByLetter
  // ---------------------------------------------------------------------------

  /** The parameter object `{letter: letter.toUpperCase(), limit: 25}`. */
  function ByLetterParams(letter: string): (o: Obj)
    ensures Get(o, "letter") == Str(Upper(letter)) && Get(o, "limit") == Num(25)
  {
    map["letter" := Str(Upper(letter)), "limit" := Num(25)]
  }

  function ByLetterUrl(letter: string): string
  {
    SearchCharactersUrl("", ByLetterParams(letter))
  }

  /**
   * The request carries the upper-cased letter (dropped when empty), the
   * limit 25 and no `q`, whatever case the letter came in.
   */
  lemma ByLetterQuery(letter: string)
    ensures Lookup(CharacterSearchQuery("", ByLetterParams(letter)), "q") == None
    ensures Lookup(CharacterSearchQuery("", ByLetterParams(letter)), "letter") ==
              (if letter != "" then Some(Upper(letter)) else None)
    ensures Lookup(CharacterSearchQuery("", ByLetterParams(letter)), "limit") == Some(IntToString(25))
    ensures Lookup(CharacterSearchQuery("", ByLetterParams(letter)), "page") == None
    ensures ByLetterParams(letter) == ByLetterParams(Upper(letter))
  {
    CharacterSearchParams("", ByLetterParams(letter));
    var u := Upper(letter);
    assert Upper(u) == u by {
      forall i | 0 <= i < |u| ensures Upper(u)[i] == u[i] {
        assert !IsLower(u[i]);
      }
    }
  }

  /**
   * `getCharactersByLetter`'s result: the response's `data` (which may be
   * missing, giving undefined), or [] when the request failed.
   */
  function CharactersByLetter<T>(resp: Result<Page<T>>): (r: Option<seq<T>>)
    ensures resp.Failure? ==> r == Some([])
    ensures resp.Success? ==> r == resp.value.data
  {
    if resp.Success? then resp.value.data else Some([])
  }

  /**
   * A caller cannot tell a failed request from a letter with no
   * characters: both give []. A response without `data` is the one case
   * that stands out, giving undefined; the entries are never sanitised.
   */
  lemma ByLetterFailureLooksEmpty<T>(error: string, pagination: Option<Pagination>, noData: Page<T>)
    requires noData.data.None?
    ensures CharactersByLetter<T>(Failure(error)) == CharactersByLetter<T>(Success(Page(Some([]), pagination)))
    ensures CharactersByLetter(Success(noData)).None?
    ensures forall p: Page<T> :: p.data.Some? ==> CharactersByLetter(Success(p)) == Some(p.data.value)
  {
  }
}
