/**
 * The host entities the providers fill in: a `Movie` item, the
 * `MetadataResult` wrapping it, and the people attached to the result.
 * Each class has a `Snapshot()` giving its current state as a value, which the
 * specification functions of the other modules compute.
 */
module Entities {
  import opened Wrappers
  import opened Models

  datatype PersonKind = Actor | Director

  datatype PersonInfo = PersonInfo(
    name: string,
    role: Option<string>,
    imageUrl: Option<string>,
    kind: PersonKind)

  /** The state of a `Movie`; `images` holds the paths of the primary images added. */
  datatype MovieData = MovieData(
    name: Option<string>,
    overview: Option<string>,
    premiereDate: Option<DateTime>,
    productionYear: Option<int>,
    originalTitle: Option<string>,
    sortName: Option<string>,
    homePageUrl: Option<string>,
    genres: seq<string>,
    studios: seq<string>,
    officialRating: Option<string>,
    providerIds: map<string, string>,
    images: seq<string>,
    hasSubtitles: bool,
    subtitleFiles: seq<string>)

  /** A movie as `new Movie()` leaves it. */
  const NewMovie: MovieData :=
    MovieData(None, None, None, None, None, None, None, [], [], None, map[], [], false, [])

  datatype ResultData = ResultData(
    hasMetadata: bool,
    item: Option<MovieData>,
    people: seq<PersonInfo>)

  /** A result as `new MetadataResult<Movie>()` leaves it: no item, no metadata. */
  const EmptyResult: ResultData := ResultData(false, None, [])

  class Movie {
    var name: Option<string>
    var overview: Option<string>
    var premiereDate: Option<DateTime>
    var productionYear: Option<int>
    var originalTitle: Option<string>
    var sortName: Option<string>
    var homePageUrl: Option<string>
    var genres: seq<string>
    var studios: seq<string>
    var officialRating: Option<string>
    var providerIds: map<string, string>
    var images: seq<string>
    var hasSubtitles: bool
    var subtitleFiles: seq<string>

    /** `new Movie { ... }`: a movie whose properties the object initializer sets as in
        `data` (`NewMovie` updated with the properties it names). */
    constructor (data: MovieData)
      ensures Snapshot() == data
    {
      name, overview, premiereDate, productionYear := data.name, data.overview, data.premiereDate, data.productionYear;
      originalTitle, sortName, homePageUrl := data.originalTitle, data.sortName, data.homePageUrl;
      genres, studios, officialRating := data.genres, data.studios, data.officialRating;
      providerIds, images := data.providerIds, data.images;
      hasSubtitles, subtitleFiles := data.hasSubtitles, data.subtitleFiles;
    }

    function Snapshot(): MovieData
      reads this
    {
      MovieData(name, overview, premiereDate, productionYear, originalTitle, sortName,
        homePageUrl, genres, studios, officialRating, providerIds, images,
        hasSubtitles, subtitleFiles)
    }

    /** `AddGenre`, as a plain append (the host's duplicate check is not modelled). */
    method AddGenre(genre: string)
      modifies this
      ensures Snapshot() == old(Snapshot()).(genres := old(genres) + [genre])
    {
      genres := genres + [genre];
    }

    /** `AddStudio`, as a plain append (the host's duplicate check is not modelled). */
    method AddStudio(studio: string)
      modifies this
      ensures Snapshot() == old(Snapshot()).(studios := old(studios) + [studio])
    {
      studios := studios + [studio];
    }

    /** `AddImage` of a primary image at `path`. */
    method AddImage(path: string)
      modifies this
      ensures Snapshot() == old(Snapshot()).(images := old(images) + [path])
    {
      images := images + [path];
    }

    /** `SetProviderId`: the key now maps to the value, replacing any earlier one. */
    method SetProviderId(key: string, value: string)
      modifies this
      ensures Snapshot() == old(Snapshot()).(providerIds := old(providerIds)[key := value])
    {
      providerIds := providerIds[key := value];
    }
  }

  class MetadataResult {
    var hasMetadata: bool
    var item: Movie?
    var people: seq<PersonInfo>

    constructor ()
      ensures Snapshot() == EmptyResult && item == null
    {
      hasMetadata, item, people := false, null, [];
    }

    function Snapshot(): ResultData
      reads this, item
    {
      ResultData(hasMetadata, if item == null then None else Some(item.Snapshot()), people)
    }

    /** `MetadataResult.AddPerson`, as a plain append (the host's own merging is not modelled). */
    method AddPerson(person: PersonInfo)
      modifies this
      ensures people == old(people) + [person]
      ensures hasMetadata == old(hasMetadata) && item == old(item)
    {
      people := people + [person];
    }
  }
}
