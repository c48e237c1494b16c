/**
 * The playback and list state of the main screen (App.tsx): the station
 * list and how much of it is shown, the current station, favourites, the
 * sleep timer, the interface language and the category load. The audio
 * element, timers and rendering are outside the model; each timer firing is
 * a method call.
 */
module Player {
  import opened Wrappers
  import opened JsText
  import opened RadioTypes
  import opened StationQueries
  import opened Locale
  import opened IdLists

  const INITIAL_CHUNK: int := 5
  const TRICKLE_STEP: int := 5
  const AUTO_TRICKLE_LIMIT: int := 15
  const PAGE_SIZE: int := 10
  const MAX_STATIONS_PER_CAT: int := 50

  datatype ViewMode = Genres | Eras | Moods | Favorites
  datatype Category = Category(id: string, name: string)

  /** What `localStorage.getItem('streamflow_favorites')` holds: nothing (or ""), a UUID list, or text `JSON.parse` rejects. */
  datatype SavedFavorites = NothingSaved | SavedIds(ids: seq<string>) | Malformed

  /** The data source `loadCategory` settles on. */
  datatype LoadPlan = FavoritesQuery(uuids: seq<string>) | TagQuery(tag: string, limit: int) | NoStations | ParseError

  // ---- station navigation -------------------------------------------------

  /** `stations.findIndex(s => s.stationuuid === uuid)`. */
  function FindIndex(stations: seq<Station>, uuid: string): (r: int)
    ensures -1 <= r < |stations|
    ensures r >= 0 ==> stations[r].stationuuid == uuid && forall k :: 0 <= k < r ==> stations[k].stationuuid != uuid
    ensures r == -1 <==> forall k :: 0 <= k < |stations| ==> stations[k].stationuuid != uuid
  {
    if stations == [] then -1
    else if stations[0].stationuuid == uuid then 0
    else
      var k := FindIndex(stations[1..], uuid);
      if k == -1 then -1 else k + 1
  }

  /** The index of the current station in the list, or -1 when there is none or it is not listed. */
  function CurrentIndex(stations: seq<Station>, current: Option<Station>): int {
    if current.Some? then FindIndex(stations, current.value.stationuuid) else -1
  }

  /** The index `handleNextStation` plays: the first when nothing is found, otherwise the next, wrapping around. */
  function NextIndex(currentIndex: int, n: int): (r: int)
    requires n > 0 && -1 <= currentIndex < n
    ensures 0 <= r < n
    ensures currentIndex == -1 || currentIndex == n - 1 ==> r == 0
    ensures 0 <= currentIndex < n - 1 ==> r == currentIndex + 1
  {
    if currentIndex == -1 then 0 else (currentIndex + 1) % n
  }

  /** The index `handlePreviousStation` plays: the last when nothing is found, otherwise the previous, wrapping around. */
  function PrevIndex(currentIndex: int, n: int): (r: int)
    requires n > 0 && -1 <= currentIndex < n
    ensures 0 <= r < n
    ensures currentIndex == -1 || currentIndex == 0 ==> r == n - 1
    ensures 0 < currentIndex ==> r == currentIndex - 1
  {
    if currentIndex == -1 then n - 1 else (currentIndex - 1 + n) % n
  }

  /** Next and previous undo each other on a found index. */
  lemma NextPrevInverse(i: int, n: int)
    requires 0 <= i < n
    ensures PrevIndex(NextIndex(i, n), n) == i
    ensures NextIndex(PrevIndex(i, n), n) == i
  {
  }

  predicate DistinctUuids(stations: seq<Station>) {
    forall i, j :: 0 <= i < j < |stations| ==> stations[i].stationuuid != stations[j].stationuuid
  }

  /** With distinct UUIDs, a listed station is found at its own index. */
  lemma FindIndexOfListed(stations: seq<Station>, j: int)
    requires DistinctUuids(stations) && 0 <= j < |stations|
    ensures FindIndex(stations, stations[j].stationuuid) == j
  {
    var k := FindIndex(stations, stations[j].stationuuid);
    assert k != -1;
  }

  // ---- sleep timer --------------------------------------------------------

  /** The sleep-timer updater run once a minute: at one minute left (or none) it stops. */
  function SleepTick(minutes: Option<int>): (r: Option<int>)
    ensures r.None? <==> minutes.None? || minutes.value <= 1
    ensures r.Some? ==> r.value == minutes.value - 1 && r.value >= 1
  {
    if minutes.None? || minutes.value <= 1 then None else Some(minutes.value - 1)
  }

  /** The timer after `ticks` firings. */
  function SleepAfter(minutes: Option<int>, ticks: nat): Option<int>
    decreases ticks
  {
    if ticks == 0 then minutes else SleepAfter(SleepTick(minutes), ticks - 1)
  }

  /** A timer set to `k` minutes counts down one per minute and stops on the k-th tick. */
  lemma {:induction false} SleepRunsOut(k: int, j: nat)
    requires k >= 1 && j <= k
    ensures j < k ==> SleepAfter(Some(k), j) == Some(k - j)
    ensures j == k ==> SleepAfter(Some(k), j) == None
  {
    if j > 0 {
      if k == 1 {
        assert SleepAfter(Some(k), j) == SleepAfter(None, 0);
      } else {
        SleepRunsOut(k - 1, j - 1);
      }
    }
  }

  // ---- language -----------------------------------------------------------

  /** The interface language chosen from `navigator.language`. */
  function BrowserLanguage(navigatorLanguage: string): Language {
    var bl := ToLower(navigatorLanguage);
    if StartsWith(bl, "ru") then Ru
    else if StartsWith(bl, "kk") then Kk
    else if StartsWith(bl, "ky") then Ky
    else En
  }

  /** A browser tag made of a language's code and any region part (`ru-RU`, `kk`, `en-GB`) selects that language. */
  lemma BrowserLanguageOfTag(language: Language, region: string)
    ensures BrowserLanguage(LanguageCode(language) + region) == language
  {
    var tag := LanguageCode(language) + region;
    var bl := ToLower(tag);
    assert bl[0] == tag[0] && bl[1] == tag[1];
    assert bl[..2] == [bl[0], bl[1]];
  }

  /** Only a tag whose first two letters, lower-cased, are a supported code picks a language other than English. */
  lemma BrowserLanguageNeedsPrefix(navigatorLanguage: string)
    ensures BrowserLanguage(navigatorLanguage) != En ==>
      |navigatorLanguage| >= 2 &&
      ToLower(navigatorLanguage[..2]) == LanguageCode(BrowserLanguage(navigatorLanguage))
  {
    if BrowserLanguage(navigatorLanguage) != En {
      var bl := ToLower(navigatorLanguage);
      assert ToLower(navigatorLanguage[..2]) == bl[..2];
    }
  }

  // ---- category load ------------------------------------------------------

  /** The data-selection branch of `loadCategory`. */
  function PlanLoad(mode: ViewMode, category: Option<Category>, saved: SavedFavorites): (r: LoadPlan)
    ensures r.TagQuery? <==> mode != Favorites && category.Some?
    ensures r.TagQuery? ==> r.tag == category.value.id && r.limit == MAX_STATIONS_PER_CAT
    ensures r.FavoritesQuery? <==> mode == Favorites && saved.SavedIds? && saved.ids != []
    ensures r.FavoritesQuery? ==> r.uuids == saved.ids
    ensures r.ParseError? <==> mode == Favorites && saved.Malformed?
  {
    if mode == Favorites then
      match saved
      case NothingSaved => NoStations
      case Malformed => ParseError
      case SavedIds(ids) => if |ids| > 0 then FavoritesQuery(ids) else NoStations
    else if category.Some? then TagQuery(category.value.id, MAX_STATIONS_PER_CAT)
    else NoStations
  }

  /** The visible prefix, `stations.slice(0, visibleCount)`, never longer than the list. */
  lemma VisiblePrefix(stations: seq<Station>, visibleCount: int)
    requires visibleCount >= 0
    ensures |SliceTo(stations, visibleCount)| == Min(visibleCount, |stations|)
    ensures SliceTo(stations, visibleCount) == stations[..Min(visibleCount, |stations|)]
  {
  }

  /** The state of the main screen. */
  class Player {
    var stations: seq<Station>
    var visibleCount: int
    var currentStation: Option<Station>
    var isPlaying: bool
    var isBuffering: bool
    var isLoading: bool
    var favorites: seq<string>
    var sleepTimer: Option<int>
    var viewMode: ViewMode
    var selectedCategory: Option<Category>
    var language: Language
    /** The browser's `localStorage['streamflow_favorites']`. */
    var savedFavorites: SavedFavorites

    /** The list is shown from its start, never a negative count of it. */
    predicate Valid()
      reads this`visibleCount
    {
      visibleCount >= 0
    }

    /** The initial state: nothing loaded yet, loading, the first genre selected; `saved` is what the browser kept. */
    constructor (firstGenre: Category, saved: SavedFavorites)
      ensures Valid()
      ensures stations == [] && visibleCount == INITIAL_CHUNK && isLoading
      ensures currentStation == None && !isPlaying && !isBuffering
      ensures favorites == [] && sleepTimer == None && language == En
      ensures viewMode == Genres && selectedCategory == Some(firstGenre)
      ensures savedFavorites == saved
    {
      savedFavorites := saved;
      stations := [];
      visibleCount := INITIAL_CHUNK;
      currentStation := None;
      isPlaying := false;
      isBuffering := false;
      isLoading := true;
      favorites := [];
      sleepTimer := None;
      viewMode := Genres;
      selectedCategory := Some(firstGenre);
      language := En;
    }

    /** `visibleStations`. */
    function VisibleStations(): seq<Station>
      reads this
    {
      SliceTo(stations, visibleCount)
    }

    /** `handlePlayStation(station)`: the station becomes current and starts buffering; no other field changes. */
    method PlayStation(station: Station)
      requires Valid()
      modifies this`currentStation, this`isPlaying, this`isBuffering
      ensures Valid()
      ensures currentStation == Some(station) && isPlaying && isBuffering
    {
      currentStation := Some(station);
      isPlaying := true;
      isBuffering := true;
    }

    /** `handleNextStation`: only the playing station and its flags change. */
    method NextStation()
      requires Valid()
      modifies this`currentStation, this`isPlaying, this`isBuffering
      ensures Valid()
      ensures stations == [] ==>
        currentStation == old(currentStation) && isPlaying == old(isPlaying) && isBuffering == old(isBuffering)
      ensures stations != [] ==>
        currentStation == Some(stations[NextIndex(CurrentIndex(stations, old(currentStation)), |stations|)])
        && isPlaying && isBuffering
    {
      if |stations| == 0 {
        return;
      }
      var currentIndex := if currentStation.Some? then FindIndex(stations, currentStation.value.stationuuid) else -1;
      var nextIndex := if currentIndex == -1 then 0 else (currentIndex + 1) % |stations|;
      PlayStation(stations[nextIndex]);
    }

    /** `handlePreviousStation`: only the playing station and its flags change. */
    method PreviousStation()
      requires Valid()
      modifies this`currentStation, this`isPlaying, this`isBuffering
      ensures Valid()
      ensures stations == [] ==>
        currentStation == old(currentStation) && isPlaying == old(isPlaying) && isBuffering == old(isBuffering)
      ensures stations != [] ==>
        currentStation == Some(stations[PrevIndex(CurrentIndex(stations, old(currentStation)), |stations|)])
        && isPlaying && isBuffering
    {
      if |stations| == 0 {
        return;
      }
      var currentIndex := if currentStation.Some? then FindIndex(stations, currentStation.value.stationuuid) else -1;
      var prevIndex := if currentIndex == -1 then |stations| - 1 else (currentIndex - 1 + |stations|) % |stations|;
      PlayStation(stations[prevIndex]);
    }

    /** `toggleFavorite(id)` as written: the list in memory changes, the saved list (and every other field) does not. */
    method ToggleFavoriteAsWritten(id: string)
      requires Valid()
      modifies this`favorites
      ensures Valid()
      ensures favorites == Toggled(old(favorites), id)
      ensures id in favorites <==> id !in old(favorites)
    {
      favorites := Toggled(favorites, id);
    }

    /** `toggleFavorite(id)` with the list saved under 'streamflow_favorites' after every change. */
    method ToggleFavorite(id: string)
      requires Valid()
      modifies this`favorites, this`savedFavorites
      ensures Valid()
      ensures favorites == Toggled(old(favorites), id)
      ensures id in favorites <==> id !in old(favorites)
      ensures savedFavorites == SavedIds(favorites)
    {
      favorites := Toggled(favorites, id);
      savedFavorites := SavedIds(favorites);
    }

    /**
     * The favourites part of the start-up effect: a saved list becomes the
     * favourites; unparsable text makes the effect throw (reported here).
     */
    method RestoreFavorites() returns (parseFailed: bool)
      requires Valid()
      modifies this`favorites
      ensures Valid()
      ensures parseFailed <==> savedFavorites.Malformed?
      ensures savedFavorites.SavedIds? ==> favorites == savedFavorites.ids
      ensures !savedFavorites.SavedIds? ==> favorites == old(favorites)
    {
      match savedFavorites
      case NothingSaved =>
        parseFailed := false;
      case Malformed =>
        parseFailed := true;
      case SavedIds(ids) =>
        favorites := ids;
        parseFailed := false;
    }

    /** The load-more button: ten more stations, never past the end of the list. */
    method LoadMore()
      requires Valid()
      modifies this`visibleCount
      ensures Valid()
      ensures visibleCount == Min(old(visibleCount) + PAGE_SIZE, |stations|)
      ensures visibleCount <= |stations|
      ensures old(visibleCount) < |stations| ==> old(visibleCount) < visibleCount
    {
      visibleCount := Min(visibleCount + PAGE_SIZE, |stations|);
    }

    /** Whether the trickle timer is armed: loaded, more to show, and under the automatic limit. */
    predicate TrickleArmed()
      reads this
    {
      !isLoading && |stations| > visibleCount && visibleCount < AUTO_TRICKLE_LIMIT
    }

    /** One firing of the trickle timer. */
    method TrickleTick()
      requires Valid()
      modifies this`visibleCount
      ensures Valid()
      ensures old(TrickleArmed()) ==> visibleCount == Min(old(visibleCount) + TRICKLE_STEP, |stations|)
      ensures old(TrickleArmed()) ==> old(visibleCount) < visibleCount <= |stations|
      ensures !old(TrickleArmed()) ==> visibleCount == old(visibleCount)
    {
      if !isLoading && |stations| > visibleCount && visibleCount < AUTO_TRICKLE_LIMIT {
        visibleCount := Min(visibleCount + TRICKLE_STEP, |stations|);
      }
    }

    /** One firing of the sleep-timer interval: at the end playback pauses. */
    method SleepTimerTick()
      requires Valid()
      modifies this`sleepTimer, this`isPlaying
      ensures Valid()
      ensures sleepTimer == SleepTick(old(sleepTimer))
      ensures sleepTimer.None? ==> !isPlaying
      ensures sleepTimer.Some? ==> isPlaying == old(isPlaying)
    {
      if sleepTimer.None? || sleepTimer.value <= 1 {
        isPlaying := false;
        sleepTimer := None;
      } else {
        sleepTimer := Some(sleepTimer.value - 1);
      }
    }

    /** The language part of the start-up effect. */
    method DetectLanguage(navigatorLanguage: string)
      requires Valid()
      modifies this`language
      ensures Valid()
      ensures language == BrowserLanguage(navigatorLanguage)
    {
      language := BrowserLanguage(navigatorLanguage);
    }

    /**
     * The synchronous part of `loadCategory`: the selection and the first
     * chunk are reset and the data source chosen; a source that needs no
     * query finishes the load at once, a parse failure ends it with the
     * list kept. Playback, favourites and the language are untouched.
     */
    method LoadCategory(category: Option<Category>, mode: ViewMode) returns (plan: LoadPlan)
      requires Valid()
      modifies this`viewMode, this`selectedCategory, this`isLoading, this`visibleCount, this`stations
      ensures Valid()
      ensures plan == PlanLoad(mode, category, savedFavorites)
      ensures viewMode == mode && selectedCategory == category && visibleCount == INITIAL_CHUNK
      ensures plan.NoStations? ==> stations == [] && !isLoading
      ensures plan.ParseError? ==> stations == old(stations) && !isLoading
      ensures plan.TagQuery? || plan.FavoritesQuery? ==> stations == old(stations) && isLoading
    {
      var saved := savedFavorites;
      viewMode := mode;
      selectedCategory := category;
      isLoading := true;
      visibleCount := INITIAL_CHUNK;
      if mode == Favorites {
        match saved
        case NothingSaved =>
          plan := NoStations;
        case Malformed =>
          isLoading := false;
          return ParseError;
        case SavedIds(ids) =>
          plan := if |ids| > 0 then FavoritesQuery(ids) else NoStations;
      } else if category.Some? {
        plan := TagQuery(category.value.id, MAX_STATIONS_PER_CAT);
      } else {
        plan := NoStations;
      }
      if plan.NoStations? {
        stations := [];
        isLoading := false;
      }
    }

    /** The end of a queried load: the list is replaced and, when asked, its first station played. */
    method FinishLoad(data: seq<Station>, autoPlay: bool)
      requires Valid()
      modifies this`stations, this`isLoading, this`currentStation, this`isPlaying, this`isBuffering
      ensures Valid()
      ensures stations == data && !isLoading
      ensures data != [] && autoPlay ==> currentStation == Some(data[0]) && isPlaying && isBuffering
      ensures !(data != [] && autoPlay) ==>
        currentStation == old(currentStation) && isPlaying == old(isPlaying) && isBuffering == old(isBuffering)
    {
      stations := data;
      isLoading := false;
      if |data| > 0 && autoPlay {
        PlayStation(data[0]);
      }
    }
  }

  /**
   * With distinct UUIDs, going to the next station and then back returns to
   * the station that was playing.
   */
  lemma PreviousAfterNextReturns(stations: seq<Station>, i: int)
    requires DistinctUuids(stations) && 0 <= i < |stations|
    ensures var next := NextIndex(i, |stations|);
      PrevIndex(CurrentIndex(stations, Some(stations[next])), |stations|) == i
  {
    FindIndexOfListed(stations, NextIndex(i, |stations|));
  }

  /**
   * As written: on a browser with nothing saved, a station marked as a
   * favourite is in the favourites list, yet opening the Favorites view
   * queries nothing.
   */
  method ToggledFavoriteMissingFromView(firstGenre: Category, id: string)
    returns (favorites: seq<string>, plan: LoadPlan)
    ensures favorites == [id]
    ensures plan == NoStations
  {
    var player := new Player(firstGenre, NothingSaved);
    player.ToggleFavoriteAsWritten(id);
    plan := player.LoadCategory(None, Favorites);
    favorites := player.favorites;
  }

  /** With the list saved on every toggle, the Favorites view queries exactly the marked stations. */
  method ToggledFavoriteShownInView(firstGenre: Category, id: string)
    returns (favorites: seq<string>, plan: LoadPlan)
    ensures favorites == [id]
    ensures plan == FavoritesQuery([id])
  {
    var player := new Player(firstGenre, NothingSaved);
    player.ToggleFavorite(id);
    plan := player.LoadCategory(None, Favorites);
    favorites := player.favorites;
  }

  /** Whatever the favourites, once saved the Favorites view queries exactly them (nothing when there are none). */
  lemma FavoritesViewQueriesSaved(favorites: seq<string>, category: Option<Category>)
    ensures PlanLoad(Favorites, category, SavedIds(favorites)) ==
      if favorites == [] then NoStations else FavoritesQuery(favorites)
  {
  }
}
