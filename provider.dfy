/**
 * `EncoraMovieMetadataProvider.GetMetadata`: reject a missing item, a blank path
 * or a missing API key; find the Encora id; fetch the recording and, when any of
 * that fails, fall back to the NFO sidecar; otherwise fetch StageMedia images,
 * render the title, build the movie, download subtitles, set rating and studio,
 * map the cast and ask for a thumbnail.
 *
 * The network is a `Remote` record of outcomes: what each request the provider
 * makes returns, or that it throws. The result says which of the provider's own
 * requests were made, which files were written and whether a thumbnail was asked for.
 */
module Provider {
  import opened Wrappers
  import opened Text
  import opened Paths
  import opened Models
  import opened Entities
  import opened Host
  import opened Nfo
  import opened EncoraId
  import opened TitleFormat
  import opened Derivations
  import opened Subtitles
  import opened Cast

  /** The recording request: it throws, answers with a failure status, or yields the
      deserialised body (which may be null). */
  datatype RecordingResponse = RecordingThrew | BadStatus | Fetched(recording: Option<EncoraRecording>)

  /** The StageMedia images request: it throws (any failure up to deserialising), or yields the body. */
  datatype ImagesResponse = ImagesThrew | ImagesFetched(images: Option<StageMediaImages>)

  /** The subtitle list request: it throws, or yields the deserialised list (which may be null). */
  datatype SubtitlesResponse = SubtitlesThrew | SubtitlesFetched(subtitles: Option<seq<EncoraSubtitles>>)

  /** What the network does: the three responses, whether downloading and saving the
      first poster succeeds, and whether downloading and saving a subtitle file succeeds. */
  datatype Remote = Remote(
    recording: RecordingResponse,
    images: ImagesResponse,
    posterDownloaded: bool,
    subtitles: SubtitlesResponse,
    subtitleDownloaded: string -> bool)

  /** The result returned, the provider's own requests in order, the files written,
      and whether a thumbnail was asked for. */
  datatype Outcome = Outcome(result: ResultData, requests: seq<string>, written: seq<string>, thumbnail: bool)

  function RecordingUrl(id: string): string {
    "https://encora.it/api/recording/" + id
  }

  function SubtitlesUrl(id: string): string {
    RecordingUrl(id) + "/subtitles"
  }

  function StageMediaUrl(showId: int, actorIds: string): string {
    "https://stagemedia.me/api/images?show_id=" + IntToString(showId) + "&actor_ids=" + actorIds
  }

  function HomePageUrl(id: string): string {
    "https://encora.it/recordings/" + id
  }

  // ---------------------------------------------------------------------------
  // The NFO fallback

  /** What `ParseNfoMetadata` returns, and whether it asked for a thumbnail. */
  datatype NfoFallback = NfoFallback(result: ResultData, thumbnail: bool)

  function ParseNfoSpec(path: string, fs: FileSystem, culture: Culture): NfoFallback {
    var dir := DirectoryName(path);
    if IsNullOrWhiteSpace(dir) then NfoFallback(EmptyResult, false)
    else
      match SidecarRoot(fs, dir.value, path)
      case None => NfoFallback(EmptyResult, true)
      case Some(root) => NfoFallback(NfoResult(root, culture), true)
  }

  /** The outcome of falling back to the sidecar after `requests` and `written`. */
  function FallBack(path: string, fs: FileSystem, culture: Culture, requests: seq<string>, written: seq<string>)
    : Outcome
  {
    var nfo := ParseNfoSpec(path, fs, culture);
    Outcome(nfo.result, requests, written, nfo.thumbnail)
  }

  /** `ParseNfoMetadata`: the thumbnail is asked for as soon as the directory is known,
      before the sidecar is looked for. */
  method ParseNfoMetadata(path: string, fs: FileSystem, culture: Culture)
    returns (result: MetadataResult, thumbnail: bool)
    ensures fresh(result)
    ensures NfoFallback(result.Snapshot(), thumbnail) == ParseNfoSpec(path, fs, culture)
  {
    result := new MetadataResult();
    thumbnail := false;
    var movieDir := DirectoryName(path);
    if IsNullOrWhiteSpace(movieDir) {
      return;
    }
    thumbnail := true;
    var root := ReadSidecar(fs, movieDir.value, path);
    if root.None? {
      return;
    }
    var movie := BuildNfoMovie(root.value, culture);
    AddActors(result, Children(root.value, "actor"));
    result.item := movie;
    result.hasMetadata := true;
  }

  // ---------------------------------------------------------------------------
  // StageMedia images

  /** The headshots kept, the request made and the poster file written. */
  datatype Images = Images(headshots: seq<StageMediaPerformer>, requests: seq<string>, written: seq<string>)

  /** The images block: asked for only with a StageMedia key and a positive show id; the
      first poster is saved as `posterPath` when that file does not exist yet; a failure
      anywhere in the block leaves no headshots. */
  function ImagesOf(config: Option<PluginConfiguration>, recording: EncoraRecording, remote: Remote,
                    fs: FileSystem, posterPath: Option<string>): Images
  {
    if IsNullOrWhiteSpace(StageMediaApiKey(config)) || recording.metadata.None? || recording.metadata.value.showId <= 0
    then Images([], [], [])
    else
      var requests := [StageMediaUrl(recording.metadata.value.showId, ActorIdsParam(recording.cast))];
      match remote.images
      case ImagesThrew => Images([], requests, [])
      case ImagesFetched(images) =>
        var needsPoster := images.Some? && |images.value.posters| > 0
                           && !IsNullOrWhiteSpace(posterPath) && !Exists(fs, posterPath.value);
        if needsPoster && !remote.posterDownloaded then Images([], requests, [])
        else
          var headshots := if images.Some? && images.value.performers.Some? && |images.value.performers.value| > 0
                           then images.value.performers.value else [];
          Images(headshots, requests, if needsPoster then [posterPath.value] else [])
  }

  /** The images block of `GetMetadata`, its exceptions caught. */
  method FetchImages(config: Option<PluginConfiguration>, recording: EncoraRecording, remote: Remote,
                     fs: FileSystem, posterPath: Option<string>)
    returns (headshots: seq<StageMediaPerformer>, requests: seq<string>, written: seq<string>)
    ensures Images(headshots, requests, written) == ImagesOf(config, recording, remote, fs, posterPath)
  {
    headshots, requests, written := [], [], [];
    var stageMediaApiKey := StageMediaApiKey(config);
    if !IsNullOrWhiteSpace(stageMediaApiKey) && recording.metadata.Some? && recording.metadata.value.showId > 0 {
      requests := [StageMediaUrl(recording.metadata.value.showId, ActorIdsParam(recording.cast))];
      if remote.images.ImagesThrew? {
        return;
      }
      var images := remote.images.images;
      if images.Some? && |images.value.posters| > 0
         && !IsNullOrWhiteSpace(posterPath) && !Exists(fs, posterPath.value) {
        if !remote.posterDownloaded {
          return;
        }
        written := [posterPath.value];
      }
      if images.Some? && images.value.performers.Some? && |images.value.performers.value| > 0 {
        headshots := images.value.performers.value;
      }
    }
  }

  // ---------------------------------------------------------------------------
  // Subtitles

  /** The subtitle block: the request made, the files written, and the list assigned to
      `SubtitleFiles` (none when the block stopped early or threw). */
  datatype SubtitleStep = SubtitleStep(requests: seq<string>, written: seq<string>, files: Option<seq<string>>)

  function SubtitlesOf(recording: EncoraRecording, id: string, path: string, movieDir: Option<string>,
                       remote: Remote): SubtitleStep
  {
    if !(recording.metadata.Some? && recording.metadata.value.hasSubtitles)
       || IsNullOrWhiteSpace(Some(id)) || IsNullOrWhiteSpace(movieDir)
    then SubtitleStep([], [], None)
    else
      match remote.subtitles
      case SubtitlesThrew => SubtitleStep([SubtitlesUrl(id)], [], None)
      case SubtitlesFetched(subs) =>
        if subs.None? || |subs.value| == 0 then SubtitleStep([SubtitlesUrl(id)], [], None)
        else
          DownloadStep(id, DownloadAll(movieDir.value, FileNameWithoutExtension(path), subs.value, remote.subtitleDownloaded))
  }

  /** The step once the subtitle list was fetched: the files the loop wrote, listed on the
      movie only when the loop ran to its end. */
  function DownloadStep(id: string, d: Downloads): SubtitleStep {
    SubtitleStep([SubtitlesUrl(id)], d.written, if d.failed then None else Some(d.written))
  }

  /** The subtitle block of `GetMetadata`, its exceptions caught. */
  method FetchSubtitles(movie: Movie, recording: EncoraRecording, id: string, path: string,
                        movieDir: Option<string>, remote: Remote)
    returns (requests: seq<string>, written: seq<string>)
    modifies movie
    ensures var step := SubtitlesOf(recording, id, path, movieDir, remote);
            requests == step.requests && written == step.written
            && movie.Snapshot()
               == old(movie.Snapshot()).(hasSubtitles := old(movie.hasSubtitles) || step.written != [],
                                         subtitleFiles := step.files.GetOr(old(movie.subtitleFiles)))
  {
    requests, written := [], [];
    if recording.metadata.Some? && recording.metadata.value.hasSubtitles
       && !IsNullOrWhiteSpace(Some(id)) && !IsNullOrWhiteSpace(movieDir) {
      requests := [SubtitlesUrl(id)];
      if remote.subtitles.SubtitlesThrew? {
        return;
      }
      var subtitles := remote.subtitles.subtitles;
      if subtitles.Some? && |subtitles.value| > 0 {
        var mediaFileName := FileNameWithoutExtension(path);
        written := WriteSubtitles(movie, movieDir.value, mediaFileName, subtitles.value, remote.subtitleDownloaded);
      }
    }
  }

  // ---------------------------------------------------------------------------
  // The movie

  function FullDate(recording: EncoraRecording): Option<string> {
    if recording.date.None? then None else recording.date.value.fullDate
  }

  /** The object initializer: title, description, premiere date and year (0 when the
      date does not parse), show name as original and sort title, and home page. */
  function InitialMovie(recording: EncoraRecording, id: string, title: string, culture: Culture): MovieData {
    var premiere := ParseDate(culture, FullDate(recording));
    NewMovie.(
      name := Some(title),
      overview := Some(Description(recording)),
      premiereDate := premiere,
      productionYear := Some(if premiere.Some? then premiere.value.year else 0),
      originalTitle := recording.show,
      sortName := recording.show,
      homePageUrl := Some(HomePageUrl(id)))
  }

  /** With metadata: the two provider ids and the genres. */
  function WithMetadata(m: MovieData, metadata: Option<EncoraMetadata>, id: string, culture: Culture): MovieData {
    if metadata.None? then m
    else
      m.(providerIds := m.providerIds["StageMediaShowId" := IntToString(metadata.value.showId)]["EncoraRecordingId" := id],
         genres := m.genres + Genres(metadata, culture))
  }

  /** The movie `GetMetadata` returns on success. */
  function EncoraMovie(recording: EncoraRecording, id: string, title: string, culture: Culture, now: DateTime,
                       subs: SubtitleStep): MovieData
  {
    WithMetadata(InitialMovie(recording, id, title, culture), recording.metadata, id, culture).(
      hasSubtitles := subs.written != [],
      subtitleFiles := subs.files.GetOr([]),
      officialRating := Rating(recording.nft, culture, now),
      studios := Studios(recording.metadata))
  }

  /** `if (condition) movie.AddGenre(genre)`. */
  method AddGenreIf(movie: Movie, condition: bool, genre: string)
    modifies movie
    ensures movie.Snapshot() == old(movie.Snapshot()).(genres := old(movie.genres) + if condition then [genre] else [])
  {
    if condition {
      movie.AddGenre(genre);
    }
  }

  /** The genre block, one `AddGenre` per condition that holds. */
  method AddEncoraGenres(movie: Movie, metadata: EncoraMetadata, culture: Culture)
    modifies movie
    ensures movie.Snapshot() == old(movie.Snapshot()).(genres := old(movie.genres) + Genres(Some(metadata), culture))
  {
    var recordingType := !IsNullOrWhiteSpace(metadata.recordingType);
    var amountRecorded := !IsNullOrWhiteSpace(metadata.amountRecorded);
    AddGenreIf(movie, recordingType, if recordingType then culture.toTitleCase(metadata.recordingType.value) else "");
    AddGenreIf(movie, amountRecorded, if amountRecorded then culture.toTitleCase(metadata.amountRecorded.value) else "");
    AddGenreIf(movie, metadata.bootCampRecommended, "Boot Camp");
    AddGenreIf(movie, metadata.hasSubtitles, "Subtitled");
    AddGenreIf(movie, metadata.isConcert, "Concert");
    GenresInOrder(old(movie.genres), metadata, culture);
  }

  /** `Genres` as the five appends of the genre block. */
  lemma GenresInOrder(g: seq<string>, metadata: EncoraMetadata, culture: Culture)
    ensures g + Genres(Some(metadata), culture)
            == g + (if !IsNullOrWhiteSpace(metadata.recordingType) then [culture.toTitleCase(metadata.recordingType.value)] else [])
                 + (if !IsNullOrWhiteSpace(metadata.amountRecorded) then [culture.toTitleCase(metadata.amountRecorded.value)] else [])
                 + (if metadata.bootCampRecommended then ["Boot Camp"] else [])
                 + (if metadata.hasSubtitles then ["Subtitled"] else [])
                 + (if metadata.isConcert then ["Concert"] else [])
  {
    var g1 := if !IsNullOrWhiteSpace(metadata.recordingType) then [culture.toTitleCase(metadata.recordingType.value)] else [];
    var g2 := if !IsNullOrWhiteSpace(metadata.amountRecorded) then [culture.toTitleCase(metadata.amountRecorded.value)] else [];
    var g3 := if metadata.bootCampRecommended then ["Boot Camp"] else [];
    var g4 := if metadata.hasSubtitles then ["Subtitled"] else [];
    var g5 := if metadata.isConcert then ["Concert"] else [];
    assert Genres(Some(metadata), culture) == g1 + g2 + g3 + g4 + g5;
    AppendFive(g, g1, g2, g3, g4, g5);
  }

  lemma AppendFive<T>(g: seq<T>, g1: seq<T>, g2: seq<T>, g3: seq<T>, g4: seq<T>, g5: seq<T>)
    ensures g + (g1 + g2 + g3 + g4 + g5) == g + g1 + g2 + g3 + g4 + g5
  {
    calc {
      g + (g1 + g2 + g3 + g4 + g5);
      g + (g1 + g2 + g3 + g4) + g5;
      g + (g1 + g2 + g3) + g4 + g5;
      g + (g1 + g2) + g3 + g4 + g5;
      g + g1 + g2 + g3 + g4 + g5;
    }
  }

  /** The initializer and the metadata block: provider ids, then genres. */
  method BuildEncoraMovie(recording: EncoraRecording, id: string, title: string, culture: Culture)
    returns (movie: Movie)
    ensures fresh(movie)
    ensures movie.Snapshot() == WithMetadata(InitialMovie(recording, id, title, culture), recording.metadata, id, culture)
  {
    var premiere := ParseDate(culture, FullDate(recording));
    movie := new Movie(NewMovie.(
      name := Some(title),
      overview := Some(Description(recording)),
      premiereDate := if premiere.Some? then premiere else None,
      productionYear := Some(if premiere.Some? then premiere.value.year else 0),
      originalTitle := recording.show,
      sortName := recording.show,
      homePageUrl := Some(HomePageUrl(id))));
    if recording.metadata.Some? {
      movie.SetProviderId("StageMediaShowId", IntToString(recording.metadata.value.showId));
      movie.SetProviderId("EncoraRecordingId", id);
      AddEncoraGenres(movie, recording.metadata.value, culture);
    }
  }

  /** The rating block: only with NFT data. */
  method ApplyRating(movie: Movie, nft: Option<EncoraNft>, culture: Culture, now: DateTime)
    modifies movie
    ensures movie.Snapshot()
            == old(movie.Snapshot()).(officialRating := if nft.None? then old(movie.officialRating) else Rating(nft, culture, now))
  {
    if nft.Some? {
      if nft.value.nftForever {
        movie.officialRating := Some("NFT Forever");
      } else if !IsNullOrWhiteSpace(nft.value.nftDate) && ParseDate(culture, nft.value.nftDate).Some?
                && IsAfter(ParseDate(culture, nft.value.nftDate).value, now) {
        movie.officialRating := Some("NFT");
      } else {
        movie.officialRating := Some("");
      }
    }
  }

  /** The movie of a successful fetch: initializer, metadata, subtitles, rating, studio. */
  method EncoraMovieOf(recording: EncoraRecording, id: string, title: string, path: string, movieDir: Option<string>,
                       culture: Culture, now: DateTime, remote: Remote)
    returns (movie: Movie, requests: seq<string>, written: seq<string>)
    ensures fresh(movie)
    ensures var subs := SubtitlesOf(recording, id, path, movieDir, remote);
            requests == subs.requests && written == subs.written
            && movie.Snapshot() == EncoraMovie(recording, id, title, culture, now, subs)
  {
    movie := BuildEncoraMovie(recording, id, title, culture);
    requests, written := FetchSubtitles(movie, recording, id, path, movieDir, remote);
    ApplyRating(movie, recording.nft, culture, now);
    if recording.metadata.Some? && !IsNullOrWhiteSpace(recording.metadata.value.venue) {
      movie.AddStudio(recording.metadata.value.venue.value);
    }
  }

  // ---------------------------------------------------------------------------
  // GetMetadata

  /** The outcome when the title renders: the movie, the cast, and the requests and files
      of the image block followed by those of the subtitle block. */
  function Succeeded(path: string, id: string, recording: EncoraRecording, config: Option<PluginConfiguration>,
                     culture: Culture, now: DateTime, remote: Remote, title: string, images: Images): Outcome
  {
    var subs := SubtitlesOf(recording, id, path, DirectoryName(path), remote);
    var people := if recording.cast.None? then []
                  else CastPeople(recording.cast.value, Some(images.headshots), recording.master, AddMasterDirector(config));
    Outcome(ResultData(true, Some(EncoraMovie(recording, id, title, culture, now, subs)), people),
            [RecordingUrl(id)] + images.requests + subs.requests, images.written + subs.written, true)
  }

  /** `folder.jpg` in the media file's directory, when there is one. */
  function PosterPath(path: string): Option<string> {
    var dir := DirectoryName(path);
    if IsNullOrWhiteSpace(dir) then None else Some(Combine(dir.value, "folder.jpg"))
  }

  /** The `recording != null` branch. */
  function FromRecordingSpec(path: string, id: string, recording: EncoraRecording, config: Option<PluginConfiguration>,
                             fs: FileSystem, culture: Culture, now: DateTime, remote: Remote): Outcome
  {
    var images := ImagesOf(config, recording, remote, fs, PosterPath(path));
    match FormatTitleSpec(TitleTemplate(config), DateReplaceChar(config), path, recording)
    case Err(_) => FallBack(path, fs, culture, [RecordingUrl(id)] + images.requests, images.written)
    case Ok(title) => Succeeded(path, id, recording, config, culture, now, remote, title, images)
  }

  /** What `GetMetadata` returns, requests, writes and asks for. */
  function GetMetadataSpec(info: Option<MovieInfo>, config: Option<PluginConfiguration>, fs: FileSystem,
                           culture: Culture, now: DateTime, remote: Remote): Outcome
  {
    if info.None? || IsNullOrWhiteSpace(info.value.path) || IsNullOrWhiteSpace(EncoraApiKey(config)) then
      Outcome(EmptyResult, [], [], false)
    else
      var path := info.value.path.value;
      var id := EncoraIdOf(path, fs);
      if IsNullOrWhiteSpace(id) then FallBack(path, fs, culture, [], [])
      else
        match remote.recording
        case Fetched(Some(recording)) => FromRecordingSpec(path, id.value, recording, config, fs, culture, now, remote)
        case _ => FallBack(path, fs, culture, [RecordingUrl(id.value)], [])
  }

  /** The `recording != null` branch once the title has rendered. */
  method Succeed(path: string, id: string, recording: EncoraRecording, config: Option<PluginConfiguration>,
                 culture: Culture, now: DateTime, remote: Remote, title: string, images: Images)
    returns (result: MetadataResult, requests: seq<string>, written: seq<string>)
    ensures fresh(result)
    ensures Outcome(result.Snapshot(), requests, written, true)
            == Succeeded(path, id, recording, config, culture, now, remote, title, images)
  {
    var movie, subtitleRequests, subtitlesWritten :=
      EncoraMovieOf(recording, id, title, path, DirectoryName(path), culture, now, remote);
    requests := [RecordingUrl(id)] + images.requests + subtitleRequests;
    written := images.written + subtitlesWritten;
    result := new MetadataResult();
    result.hasMetadata := true;
    result.item := movie;
    if recording.cast.Some? {
      MapCastToResult(result, recording.cast.value, Some(images.headshots), recording.master, AddMasterDirector(config));
    }
  }

  /** The `recording != null` branch: everything up to the thumbnail request. */
  method FromRecording(path: string, id: string, recording: EncoraRecording, config: Option<PluginConfiguration>,
                       fs: FileSystem, culture: Culture, now: DateTime, remote: Remote)
    returns (result: MetadataResult, requests: seq<string>, written: seq<string>, thumbnail: bool)
    ensures fresh(result)
    ensures Outcome(result.Snapshot(), requests, written, thumbnail)
            == FromRecordingSpec(path, id, recording, config, fs, culture, now, remote)
  {
    var movieDir := DirectoryName(path);
    var posterPath := if !IsNullOrWhiteSpace(movieDir) then Some(Combine(movieDir.value, "folder.jpg")) else None;
    var headshots, imageRequests, posterWritten := FetchImages(config, recording, remote, fs, posterPath);
    var title := FormatTitle(TitleTemplate(config), DateReplaceChar(config), path, recording);
    if title.Err? {
      requests, written := [RecordingUrl(id)] + imageRequests, posterWritten;
      result, thumbnail := ParseNfoMetadata(path, fs, culture);
    } else {
      result, requests, written :=
        Succeed(path, id, recording, config, culture, now, remote, title.value, Images(headshots, imageRequests, posterWritten));
      thumbnail := true;
    }
  }

  /** `GetMetadata`. */
  method GetMetadata(info: Option<MovieInfo>, config: Option<PluginConfiguration>, fs: FileSystem,
                     culture: Culture, now: DateTime, remote: Remote)
    returns (result: MetadataResult, requests: seq<string>, written: seq<string>, thumbnail: bool)
    ensures fresh(result)
    ensures Outcome(result.Snapshot(), requests, written, thumbnail) == GetMetadataSpec(info, config, fs, culture, now, remote)
  {
    result := new MetadataResult();
    requests, written, thumbnail := [], [], false;
    if info.None? {
      return;
    }
    if IsNullOrWhiteSpace(info.value.path) {
      return;
    }
    var apiKey := EncoraApiKey(config);
    if IsNullOrWhiteSpace(apiKey) {
      return;
    }
    var path := info.value.path.value;
    var encoraId := ExtractEncoraId(path, fs);
    if IsNullOrWhiteSpace(encoraId) {
      result, thumbnail := ParseNfoMetadata(path, fs, culture);
      return;
    }
    requests := [RecordingUrl(encoraId.value)];
    if remote.recording.Fetched? && remote.recording.recording.Some? {
      result, requests, written, thumbnail :=
        FromRecording(path, encoraId.value, remote.recording.recording.value, config, fs, culture, now, remote);
    } else {
      result, thumbnail := ParseNfoMetadata(path, fs, culture);
    }
  }

  // ---------------------------------------------------------------------------
  // Properties

  /** The three gates before any lookup: an item, a path that is not blank, an Encora key. */
  predicate Admitted(info: Option<MovieInfo>, config: Option<PluginConfiguration>) {
    info.Some? && !IsNullOrWhiteSpace(info.value.path) && !IsNullOrWhiteSpace(EncoraApiKey(config))
  }

  /** The provider builds its own movie: an id is found, the recording arrives and the title renders. */
  predicate Renders(info: Option<MovieInfo>, config: Option<PluginConfiguration>, fs: FileSystem, remote: Remote) {
    Admitted(info, config)
    && !IsNullOrWhiteSpace(EncoraIdOf(info.value.path.value, fs))
    && remote.recording.Fetched? && remote.recording.recording.Some?
    && FormatTitleSpec(TitleTemplate(config), DateReplaceChar(config), info.value.path.value,
                       remote.recording.recording.value).Ok?
  }

  /** The movie built when the provider `Renders`. */
  function RenderedMovie(info: Option<MovieInfo>, config: Option<PluginConfiguration>, fs: FileSystem,
                         culture: Culture, now: DateTime, remote: Remote): MovieData
    requires Renders(info, config, fs, remote)
  {
    var path := info.value.path.value;
    var recording := remote.recording.recording.value;
    var id := EncoraIdOf(path, fs).value;
    EncoraMovie(recording, id, FormatTitleSpec(TitleTemplate(config), DateReplaceChar(config), path, recording).value,
                culture, now, SubtitlesOf(recording, id, path, DirectoryName(path), remote))
  }

  /** Without an item, a path or an Encora key the result is empty, nothing is fetched,
      nothing is written and no thumbnail is asked for. */
  lemma EarlyRejection(info: Option<MovieInfo>, config: Option<PluginConfiguration>, fs: FileSystem,
                       culture: Culture, now: DateTime, remote: Remote)
    requires !Admitted(info, config)
    ensures GetMetadataSpec(info, config, fs, culture, now, remote) == Outcome(EmptyResult, [], [], false)
  {
  }

  /** A freshly created configuration holds an empty Encora key, so the provider fetches
      nothing and returns an empty result until a key is set. */
  lemma FreshConfigurationFetchesNothing(info: Option<MovieInfo>, fs: FileSystem, culture: Culture, now: DateTime,
                                         remote: Remote)
    ensures GetMetadataSpec(info, Some(DefaultConfiguration), fs, culture, now, remote) == Outcome(EmptyResult, [], [], false)
  {
    assert IsNullOrWhiteSpace(EncoraApiKey(Some(DefaultConfiguration)));
  }

  /** Both NFO readers return the same result for a path that is not blank; the Encora
      provider's reader asks for a thumbnail exactly when the path has a directory. */
  lemma ReadersAgree(path: string, fs: FileSystem, culture: Culture)
    requires !IsNullOrWhiteSpace(Some(path))
    ensures ParseNfoSpec(path, fs, culture).result == ProviderResult(MovieInfo(Some(path)), fs, culture)
    ensures ParseNfoSpec(path, fs, culture).thumbnail <==> !IsNullOrWhiteSpace(DirectoryName(path))
  {
  }

  /** When the provider does not build its own movie, its outcome is the NFO reader's. */
  lemma NotRenderedReadsNfo(info: Option<MovieInfo>, config: Option<PluginConfiguration>, fs: FileSystem,
                            culture: Culture, now: DateTime, remote: Remote)
    requires Admitted(info, config) && !Renders(info, config, fs, remote)
    ensures var nfo := ParseNfoSpec(info.value.path.value, fs, culture);
            var outcome := GetMetadataSpec(info, config, fs, culture, now, remote);
            outcome.result == nfo.result && outcome.thumbnail == nfo.thumbnail
  {
    var path := info.value.path.value;
    var id := EncoraIdOf(path, fs);
    if IsNullOrWhiteSpace(id) {
      assert GetMetadataSpec(info, config, fs, culture, now, remote) == FallBack(path, fs, culture, [], []);
    } else if remote.recording.Fetched? && remote.recording.recording.Some? {
      var recording := remote.recording.recording.value;
      assert GetMetadataSpec(info, config, fs, culture, now, remote)
             == FromRecordingSpec(path, id.value, recording, config, fs, culture, now, remote);
    } else {
      assert GetMetadataSpec(info, config, fs, culture, now, remote)
             == FallBack(path, fs, culture, [RecordingUrl(id.value)], []);
    }
  }

  /** Whenever the provider does not build its own movie (no id, the request throws or
      fails, a null recording, a title that cannot be rendered), it returns what the NFO
      provider returns for the same item. */
  lemma FallbackIsNfoResult(info: Option<MovieInfo>, config: Option<PluginConfiguration>, fs: FileSystem,
                            culture: Culture, now: DateTime, remote: Remote)
    requires Admitted(info, config) && !Renders(info, config, fs, remote)
    ensures GetMetadataSpec(info, config, fs, culture, now, remote).result == ProviderResult(info.value, fs, culture)
  {
    NotRenderedReadsNfo(info, config, fs, culture, now, remote);
    ReadersAgree(info.value.path.value, fs, culture);
  }

  /** When the provider builds its own movie, the outcome is that of the success path. */
  lemma RenderedOutcome(info: Option<MovieInfo>, config: Option<PluginConfiguration>, fs: FileSystem,
                        culture: Culture, now: DateTime, remote: Remote)
    requires Renders(info, config, fs, remote)
    ensures var path := info.value.path.value;
            var recording := remote.recording.recording.value;
            GetMetadataSpec(info, config, fs, culture, now, remote)
            == Succeeded(path, EncoraIdOf(path, fs).value, recording, config, culture, now, remote,
                         FormatTitleSpec(TitleTemplate(config), DateReplaceChar(config), path, recording).value,
                         ImagesOf(config, recording, remote, fs, PosterPath(path)))
  {
    var path := info.value.path.value;
    var recording := remote.recording.recording.value;
    assert GetMetadataSpec(info, config, fs, culture, now, remote)
           == FromRecordingSpec(path, EncoraIdOf(path, fs).value, recording, config, fs, culture, now, remote);
  }

  /** When the provider builds its own movie, the result carries metadata and that movie,
      and a thumbnail is asked for. */
  lemma RenderedHasMetadata(info: Option<MovieInfo>, config: Option<PluginConfiguration>, fs: FileSystem,
                            culture: Culture, now: DateTime, remote: Remote)
    requires Renders(info, config, fs, remote)
    ensures GetMetadataSpec(info, config, fs, culture, now, remote).result.hasMetadata
    ensures GetMetadataSpec(info, config, fs, culture, now, remote).thumbnail
    ensures GetMetadataSpec(info, config, fs, culture, now, remote).result.item
            == Some(RenderedMovie(info, config, fs, culture, now, remote))
  {
    RenderedOutcome(info, config, fs, culture, now, remote);
  }

  /** A thumbnail is asked for exactly when the gates pass and either the movie is built
      or the path has a directory for the NFO reader. */
  lemma ThumbnailRequested(info: Option<MovieInfo>, config: Option<PluginConfiguration>, fs: FileSystem,
                           culture: Culture, now: DateTime, remote: Remote)
    ensures GetMetadataSpec(info, config, fs, culture, now, remote).thumbnail
            <==> Admitted(info, config)
                 && (Renders(info, config, fs, remote) || !IsNullOrWhiteSpace(DirectoryName(info.value.path.value)))
  {
    if Renders(info, config, fs, remote) {
      RenderedHasMetadata(info, config, fs, culture, now, remote);
    } else if Admitted(info, config) {
      NotRenderedReadsNfo(info, config, fs, culture, now, remote);
      ReadersAgree(info.value.path.value, fs, culture);
    }
  }

  /** Without an Encora id nothing is requested or written. */
  lemma NoIdNoRequest(info: Option<MovieInfo>, config: Option<PluginConfiguration>, fs: FileSystem,
                      culture: Culture, now: DateTime, remote: Remote)
    requires Admitted(info, config) && IsNullOrWhiteSpace(EncoraIdOf(info.value.path.value, fs))
    ensures GetMetadataSpec(info, config, fs, culture, now, remote).requests == []
    ensures GetMetadataSpec(info, config, fs, culture, now, remote).written == []
  {
  }

  /** With an Encora id the recording is the first request, and it is the only one when
      the recording does not arrive. */
  lemma RecordingRequestedFirst(info: Option<MovieInfo>, config: Option<PluginConfiguration>, fs: FileSystem,
                                culture: Culture, now: DateTime, remote: Remote)
    requires Admitted(info, config) && !IsNullOrWhiteSpace(EncoraIdOf(info.value.path.value, fs))
    ensures var requests := GetMetadataSpec(info, config, fs, culture, now, remote).requests;
            |requests| >= 1 && requests[0] == RecordingUrl(EncoraIdOf(info.value.path.value, fs).value)
    ensures !(remote.recording.Fetched? && remote.recording.recording.Some?)
            ==> GetMetadataSpec(info, config, fs, culture, now, remote).requests
                == [RecordingUrl(EncoraIdOf(info.value.path.value, fs).value)]
  {
    var path := info.value.path.value;
    var id := EncoraIdOf(path, fs).value;
    if remote.recording.Fetched? && remote.recording.recording.Some? {
      var recording := remote.recording.recording.value;
      assert GetMetadataSpec(info, config, fs, culture, now, remote)
             == FromRecordingSpec(path, id, recording, config, fs, culture, now, remote);
    } else {
      assert GetMetadataSpec(info, config, fs, culture, now, remote) == FallBack(path, fs, culture, [RecordingUrl(id)], []);
    }
  }

  /** A title that cannot be rendered falls back to the sidecar, but the image block has
      already run: its request and its poster file stay. */
  lemma TitleErrorKeepsImages(info: Option<MovieInfo>, config: Option<PluginConfiguration>, fs: FileSystem,
                              culture: Culture, now: DateTime, remote: Remote)
    requires Admitted(info, config) && !IsNullOrWhiteSpace(EncoraIdOf(info.value.path.value, fs))
    requires remote.recording.Fetched? && remote.recording.recording.Some?
    requires FormatTitleSpec(TitleTemplate(config), DateReplaceChar(config), info.value.path.value,
                             remote.recording.recording.value).Err?
    ensures var path := info.value.path.value;
            var images := ImagesOf(config, remote.recording.recording.value, remote, fs, PosterPath(path));
            var outcome := GetMetadataSpec(info, config, fs, culture, now, remote);
            outcome.result == ProviderResult(info.value, fs, culture)
            && outcome.requests == [RecordingUrl(EncoraIdOf(path, fs).value)] + images.requests
            && outcome.written == images.written
  {
    ReadersAgree(info.value.path.value, fs, culture);
  }

  /** The movie built: the rendered title, the description, the show as original and
      sort title, the recording's page, the venue as studio and the NFT rating. */
  lemma MovieFields(recording: EncoraRecording, id: string, title: string, culture: Culture, now: DateTime,
                    subs: SubtitleStep)
    ensures var movie := EncoraMovie(recording, id, title, culture, now, subs);
            movie.name == Some(title)
            && movie.overview == Some(Description(recording))
            && movie.originalTitle == recording.show && movie.sortName == recording.show
            && movie.homePageUrl == Some("https://encora.it/recordings/" + id)
            && movie.studios == Studios(recording.metadata)
            && movie.officialRating == Rating(recording.nft, culture, now)
            && movie.images == []
  {
  }

  /** The premiere date is the recording's full date when it parses; the production year
      is that date's year, and 0 when it does not parse. */
  lemma PremiereAndYear(recording: EncoraRecording, id: string, title: string, culture: Culture, now: DateTime,
                        subs: SubtitleStep)
    ensures var date := ParseDate(culture, FullDate(recording));
            var movie := EncoraMovie(recording, id, title, culture, now, subs);
            movie.premiereDate == date
            && movie.productionYear == Some(if date.Some? then date.value.year else 0)
  {
  }

  /** The provider ids and the genres come from the metadata block, and only with metadata. */
  lemma MetadataBlock(recording: EncoraRecording, id: string, title: string, culture: Culture, now: DateTime,
                      subs: SubtitleStep)
    ensures var movie := EncoraMovie(recording, id, title, culture, now, subs);
            movie.genres == Genres(recording.metadata, culture)
            && movie.providerIds
               == if recording.metadata.None? then map[]
                  else map["StageMediaShowId" := IntToString(recording.metadata.value.showId), "EncoraRecordingId" := id]
  {
  }

  /** The subtitle block assigns either nothing or exactly the files it wrote; without the
      metadata flag it makes no request and writes nothing. */
  lemma SubtitleStepFiles(recording: EncoraRecording, id: string, path: string, movieDir: Option<string>, remote: Remote)
    ensures var step := SubtitlesOf(recording, id, path, movieDir, remote);
            (step.files.None? || step.files == Some(step.written))
            && (!(recording.metadata.Some? && recording.metadata.value.hasSubtitles) ==> step.requests == [] && step.written == [])
  {
  }

  /** The movie has subtitles exactly when a subtitle file was written, and it lists either
      no file or every file written. */
  lemma SubtitlesRecorded(recording: EncoraRecording, id: string, title: string, culture: Culture, now: DateTime,
                          path: string, movieDir: Option<string>, remote: Remote)
    ensures var step := SubtitlesOf(recording, id, path, movieDir, remote);
            var movie := EncoraMovie(recording, id, title, culture, now, step);
            (movie.hasSubtitles <==> step.written != [])
            && (movie.subtitleFiles == [] || movie.subtitleFiles == step.written)
  {
    SubtitleStepFiles(recording, id, path, movieDir, remote);
  }

  /** A subtitle download that fails after another file was written leaves the movie
      marked as having subtitles with no subtitle file listed. */
  lemma {:induction false} PartialSubtitleDownload(recording: EncoraRecording, id: string, path: string, movieDir: Option<string>,
                                remote: Remote, sub: EncoraSubtitles, failing: EncoraSubtitles)
    requires recording.metadata.Some? && recording.metadata.value.hasSubtitles
    requires !IsNullOrWhiteSpace(Some(id)) && !IsNullOrWhiteSpace(movieDir)
    requires remote.subtitles == SubtitlesFetched(Some([sub, failing]))
    requires SubtitleFileName(FileNameWithoutExtension(path), sub).Some? && remote.subtitleDownloaded(sub.url.value)
    requires SubtitleFileName(FileNameWithoutExtension(path), failing).Some? && !remote.subtitleDownloaded(failing.url.value)
    ensures SubtitlesOf(recording, id, path, movieDir, remote).written != []
    ensures SubtitlesOf(recording, id, path, movieDir, remote).files == None
  {
    SubtitlesDownloaded(recording, id, path, movieDir.value, remote, [sub, failing]);
    FailureAfterWrite(movieDir.value, FileNameWithoutExtension(path), sub, failing, remote.subtitleDownloaded);
  }

  /** With a non-empty subtitle list fetched, the step writes what the download loop wrote
      and lists those files only when the loop ran to its end. */
  lemma {:induction false} SubtitlesDownloaded(recording: EncoraRecording, id: string, path: string, dir: string,
                                               remote: Remote, subs: seq<EncoraSubtitles>)
    requires recording.metadata.Some? && recording.metadata.value.hasSubtitles
    requires !IsNullOrWhiteSpace(Some(id)) && !IsBlank(dir)
    requires remote.subtitles == SubtitlesFetched(Some(subs)) && subs != []
    ensures SubtitlesOf(recording, id, path, Some(dir), remote)
            == DownloadStep(id, DownloadAll(dir, FileNameWithoutExtension(path), subs, remote.subtitleDownloaded))
  {
    assert !(!(recording.metadata.Some? && recording.metadata.value.hasSubtitles)
             || IsNullOrWhiteSpace(Some(id)) || IsNullOrWhiteSpace(Some(dir)));
    assert !(Some(subs).None? || |subs| == 0);
  }

  /** The people are the mapped cast, with the headshots the image block kept; without a
      cast there are none, and with the director option off they are the actors alone. */
  lemma PeopleFromCast(info: Option<MovieInfo>, config: Option<PluginConfiguration>, fs: FileSystem,
                       culture: Culture, now: DateTime, remote: Remote)
    requires Renders(info, config, fs, remote)
    ensures var recording := remote.recording.recording.value;
            var headshots := ImagesOf(config, recording, remote, fs, PosterPath(info.value.path.value)).headshots;
            var people := GetMetadataSpec(info, config, fs, culture, now, remote).result.people;
            (recording.cast.None? ==> people == [])
            && (recording.cast.Some? && !AddMasterDirector(config) ==> people == Actors(recording.cast.value, Some(headshots)))
  {
    RenderedOutcome(info, config, fs, culture, now, remote);
    var recording := remote.recording.recording.value;
    if recording.cast.Some? {
      var headshots := ImagesOf(config, recording, remote, fs, PosterPath(info.value.path.value)).headshots;
      FlagOffOnlyActors(recording.cast.value, Some(headshots), recording.master);
    }
  }

  /** The StageMedia request is made exactly when there is a StageMedia key and a positive
      show id; headshots are kept only when that request answered. */
  lemma ImagesGate(config: Option<PluginConfiguration>, recording: EncoraRecording, remote: Remote,
                   fs: FileSystem, posterPath: Option<string>)
    ensures var images := ImagesOf(config, recording, remote, fs, posterPath);
            (images.requests != [] <==> !IsNullOrWhiteSpace(StageMediaApiKey(config))
                                        && recording.metadata.Some? && recording.metadata.value.showId > 0)
            && (images.requests != [] ==>
                  images.requests == [StageMediaUrl(recording.metadata.value.showId, ActorIdsParam(recording.cast))])
            && (images.headshots != [] ==> images.requests != [] && remote.images.ImagesFetched?)
  {
  }

  /** The poster is written only to a poster path that is not taken yet, and only when its
      download succeeded. */
  lemma PosterOnlyWhenMissing(config: Option<PluginConfiguration>, recording: EncoraRecording, remote: Remote,
                              fs: FileSystem, posterPath: Option<string>)
    ensures var images := ImagesOf(config, recording, remote, fs, posterPath);
            images.written != []
            ==> posterPath.Some? && !Exists(fs, posterPath.value) && remote.posterDownloaded
                && images.written == [posterPath.value]
  {
  }

  /** A poster download that fails throws out of the image block: no headshots. */
  lemma PosterFailureDropsHeadshots(config: Option<PluginConfiguration>, recording: EncoraRecording, remote: Remote,
                                    fs: FileSystem, posterPath: Option<string>)
    requires remote.images.ImagesFetched? && remote.images.images.Some?
    requires |remote.images.images.value.posters| > 0
    requires !IsNullOrWhiteSpace(posterPath) && !Exists(fs, posterPath.value) && !remote.posterDownloaded
    ensures ImagesOf(config, recording, remote, fs, posterPath).headshots == []
    ensures ImagesOf(config, recording, remote, fs, posterPath).written == []
  {
  }

  /** With a StageMedia answer, no poster to save and performers listed, the performers are
      the headshots. */
  lemma PerformersAreHeadshots(config: Option<PluginConfiguration>, recording: EncoraRecording, remote: Remote,
                               fs: FileSystem, posterPath: Option<string>, performers: seq<StageMediaPerformer>)
    requires !IsNullOrWhiteSpace(StageMediaApiKey(config)) && recording.metadata.Some? && recording.metadata.value.showId > 0
    requires remote.images.ImagesFetched? && remote.images.images.Some?
    requires remote.images.images.value.performers == Some(performers)
    requires remote.posterDownloaded || remote.images.images.value.posters == []
    ensures ImagesOf(config, recording, remote, fs, posterPath).headshots == performers
  {
  }
}
