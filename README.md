# Encora metadata provider for Jellyfin, modelled in Dafny

Jellyfin.Plugin.Encora fills in Jellyfin movie metadata for theatre recordings
listed on encora.it. Its core is modelled here:

- **Finding the Encora id** of a media file (`encora_id.dfy`). The id comes from a
  `{e-<digits>}` marker in the path. Failing that, it comes from a `.encora-<digits>`
  file in the directory, or else from the text of a `.encora-id` file.
- **Rendering the title** from the configured template (`title_format.dfy`). The
  tokens are `{show}`, `{date}`, `{date_iso}`, `{date_usa}`, `{date_numeric}`,
  `{tour}` and `{master}`. The model covers unknown month and day placeholders,
  the variant and matinée suffixes, and the "Act N" suffix taken from the first
  match anywhere in the media path, directory names included.
- **The derived fields** (`derivations.dfy`): the overview text, the genres, the
  studio, the NFT rating, the StageMedia `actor_ids` parameter and subtitle file names.
- **Mapping the cast** to people (`cast.dfy`, `EncoraCastMember.MapCastToResult`):
  - Named performers become actors, in cast order, with role and headshot.
  - The master can optionally be added as director.
- **Downloading subtitles** (`subtitles.dfy`).
- **Reading an NFO sidecar** (`nfo.dfy`, `NfoMetadataProvider.GetMetadata`): a
  `movie.nfo` or `<name>.nfo` with a `<movie>` root.
- **The provider itself** (`provider.dfy`, `EncoraMovieMetadataProvider.GetMetadata`
  and `ParseNfoMetadata`):
  - It rejects an item without a path or without an API key.
  - It falls back to the sidecar when no Encora id is found, when the recording
    request fails or returns nothing, or when the title cannot be rendered.
  - Otherwise it builds the movie, maps the cast and asks for a thumbnail.

Supporting modules model the host:

- `text.dfy`: .NET string operations (`Trim`, `Split`, `Replace`, `int.TryParse`, `ToString`).
- `paths.dfy`: `System.IO.Path` on '/'-separated paths.
- `xml.dfy`: the parsed XML tree.
- `host.dfy`: the file system as the providers see it.
- `models.dfy`: the JSON records and the plugin settings.
- `entities.dfy`: Jellyfin's `Movie` and `MetadataResult`, as classes whose methods
  update their fields.

The parts that change state are imperative Dafny proved against specification
functions:

- The provider's `GetMetadata` returns a fresh `MetadataResult` whose snapshot equals
  `GetMetadataSpec`.
- The NFO readers' loops are proved against `NonBlankValues`, `AnyNonBlank` and `NfoPeople`.
- The cast loop is proved against `Actors`.
- The subtitle loop is proved against `DownloadAll`.
- The title's date block is proved against `DateStringsOf`.
- The id search is proved against `EncoraIdOf`.

The lemmas then state what the plugin promises about those functions.

The network is a record of outcomes (`Provider.Remote`): what each request returns,
or that it throws. A run's `Outcome` says four things:

- which requests the provider made;
- which files it wrote;
- whether it asked for a thumbnail;
- what result it returned.

Four consequences of the code are easy to miss; each is stated by a lemma:

- When the recording's full date does not parse, `ProductionYear` is set to 0
  rather than left unset (`Provider.PremiereAndYear`).
- General notes are appended after the description and the master notes, under a
  "General Notes:" heading. They are not an alternative base text
  (`Derivations.DescriptionWithNotes`).
- A subtitle download can fail after another subtitle file was written. The movie
  then keeps `HasSubtitles = true`, but `SubtitleFiles` is never assigned
  (`Provider.PartialSubtitleDownload`).
- A title that cannot be rendered falls back to the sidecar. This happens in two cases:
  `DateReplaceChar` is empty and the recording has a non-blank full date whose month
  or day is unknown or missing (`TitleFormat.SplitDate`); or a known date is not a
  calendar date. By then the image block has already run. With a StageMedia key and a
  positive ShowId, the StageMedia request has been made and the poster may have been
  written (`Provider.TitleErrorKeepsImages`, `Provider.ImagesGate`).

## Model

| member | source | states |
|---|---|---|
| Provider.GetMetadata | Jellyfin.Plugin.Encora/Providers/EncoraMovieMetadataProvider.cs:80-341 | returns a fresh result whose state, with the requests, the files written and the thumbnail request, is `GetMetadataSpec`: the gates, the id lookup, the fetch, the fallback and the success path |
| Provider.GetMetadataSpec | Jellyfin.Plugin.Encora/Providers/EncoraMovieMetadataProvider.cs:80-341 | the specification `GetMetadata` is proved against: the empty result at the item, path and key gates; the sidecar result when no id is found or no recording arrives; otherwise `FromRecordingSpec`. Its properties are the `Provider` lemmas below |
| Provider.ImagesOf | Jellyfin.Plugin.Encora/Providers/EncoraMovieMetadataProvider.cs:140-180 | the image block: the StageMedia request only with a key and a positive ShowId, the poster written only to a missing `folder.jpg`, headshots kept only when the block does not throw (`ImagesGate`, `PosterOnlyWhenMissing`, `PosterFailureDropsHeadshots`, `PerformersAreHeadshots`) |
| Provider.SubtitlesOf | Jellyfin.Plugin.Encora/Providers/EncoraMovieMetadataProvider.cs:243-289 | the subtitle block: the list request only with the flag, an id and a directory, then the download loop; the files are listed only when the loop completes (`SubtitleStepFiles`, `PartialSubtitleDownload`) |
| Provider.EncoraMovie | Jellyfin.Plugin.Encora/Providers/EncoraMovieMetadataProvider.cs:199-314 | the movie the success path builds: initializer, provider ids and genres with metadata, subtitle flag and files, rating and studio (`MovieFields`, `PremiereAndYear`, `MetadataBlock`, `SubtitlesRecorded`) |
| Provider.FromRecording | Jellyfin.Plugin.Encora/Providers/EncoraMovieMetadataProvider.cs:130-325 | the `recording != null` branch: image block, title, then either the sidecar fallback or the built movie with its cast |
| Provider.Succeed | Jellyfin.Plugin.Encora/Providers/EncoraMovieMetadataProvider.cs:199-324 | the success path: result has metadata and the Encora movie, people are the mapped cast with the kept headshots, requests and files of the image block followed by those of the subtitle block |
| Provider.EncoraMovieOf | Jellyfin.Plugin.Encora/Providers/EncoraMovieMetadataProvider.cs:199-314 | the new movie equals `EncoraMovie`: initializer, metadata block, subtitles, rating, studio |
| Provider.BuildEncoraMovie | Jellyfin.Plugin.Encora/Providers/EncoraMovieMetadataProvider.cs:199-240 | a fresh movie set by the object initializer, then provider ids and genres only when metadata is present |
| Provider.AddEncoraGenres | Jellyfin.Plugin.Encora/Providers/EncoraMovieMetadataProvider.cs:216-239 | appends exactly `Genres` of the metadata and changes nothing else |
| Provider.AddGenreIf | Jellyfin.Plugin.Encora/Providers/EncoraMovieMetadataProvider.cs:216-219 | one guarded `AddGenre`: appends the genre exactly when the condition holds |
| Provider.GenresInOrder | Jellyfin.Plugin.Encora/Providers/EncoraMovieMetadataProvider.cs:216-239 | the five guarded appends in source order add up to `Genres` |
| Provider.ApplyRating | Jellyfin.Plugin.Encora/Providers/EncoraMovieMetadataProvider.cs:292-308 | the rating is left alone without NFT data and is otherwise `Rating`; nothing else changes |
| Provider.FetchImages | Jellyfin.Plugin.Encora/Providers/EncoraMovieMetadataProvider.cs:140-180 | headshots, request and poster file equal `ImagesOf`, exceptions included |
| Provider.FetchSubtitles | Jellyfin.Plugin.Encora/Providers/EncoraMovieMetadataProvider.cs:242-287 | request, files and movie update equal `SubtitlesOf`: HasSubtitles gains the files written, SubtitleFiles is assigned only when the loop completes |
| Provider.ParseNfoMetadata | Jellyfin.Plugin.Encora/Providers/EncoraMovieMetadataProvider.cs:512-615 | empty result and no thumbnail without a directory; otherwise a thumbnail request and the sidecar's result, or the empty result without a `<movie>` sidecar |
| Provider.EarlyRejection | Jellyfin.Plugin.Encora/Providers/EncoraMovieMetadataProvider.cs:83-102 | without an item, a path or an Encora key: empty result, no request, no file, no thumbnail |
| Provider.FreshConfigurationFetchesNothing | Jellyfin.Plugin.Encora/Configuration/PluginConfiguration.cs:29-36 | with the settings of a new configuration (empty Encora key) the provider does nothing and returns an empty result |
| Provider.ReadersAgree | Jellyfin.Plugin.Encora/Providers/EncoraMovieMetadataProvider.cs:512-615 | for a non-blank path the Encora provider's sidecar reader returns exactly what `NfoMetadataProvider` returns; it asks for a thumbnail iff the path has a directory |
| Provider.NotRenderedReadsNfo | Jellyfin.Plugin.Encora/Providers/EncoraMovieMetadataProvider.cs:104-125 | when no movie is built, result and thumbnail are those of the sidecar reader |
| Provider.FallbackIsNfoResult | Jellyfin.Plugin.Encora/Providers/EncoraMovieMetadataProvider.cs:328-338 | no id, a failed or throwing request, a null recording or an unrenderable title all give the NFO provider's result for the same item |
| Provider.RenderedOutcome | Jellyfin.Plugin.Encora/Providers/EncoraMovieMetadataProvider.cs:130-325 | with an id, a recording and a rendered title, the outcome is the success path's |
| Provider.RenderedHasMetadata | Jellyfin.Plugin.Encora/Providers/EncoraMovieMetadataProvider.cs:316-340 | on success HasMetadata is true, the item is the Encora movie and a thumbnail is asked for |
| Provider.ThumbnailRequested | Jellyfin.Plugin.Encora/Providers/EncoraMovieMetadataProvider.cs:80-341 | a thumbnail is asked for iff the gates pass and either the movie is built or the path has a directory |
| Provider.NoIdNoRequest | Jellyfin.Plugin.Encora/Providers/EncoraMovieMetadataProvider.cs:104-110 | without an id nothing is requested or written |
| Provider.RecordingRequestedFirst | Jellyfin.Plugin.Encora/Providers/EncoraMovieMetadataProvider.cs:117-125 | with an id the recording URL is the first request, and the only one when no recording arrives |
| Provider.TitleErrorKeepsImages | Jellyfin.Plugin.Encora/Providers/EncoraMovieMetadataProvider.cs:140-208 | an unrenderable title gives the NFO result but keeps the image block's request and poster file |
| Provider.MovieFields | Jellyfin.Plugin.Encora/Providers/EncoraMovieMetadataProvider.cs:199-314 | the movie's name is the title, overview the description, original and sort title the show, home page the recording's page, studios the venue, rating the NFT rating, no images |
| Provider.PremiereAndYear | Jellyfin.Plugin.Encora/Providers/EncoraMovieMetadataProvider.cs:203-204 | premiere date is the parsed full date; production year is its year, or 0 when it does not parse |
| Provider.MetadataBlock | Jellyfin.Plugin.Encora/Providers/EncoraMovieMetadataProvider.cs:211-240 | genres are `Genres`; provider ids are the show id and recording id with metadata, none without |
| Provider.SubtitleStepFiles | Jellyfin.Plugin.Encora/Providers/EncoraMovieMetadataProvider.cs:242-287 | the subtitle block assigns no list or exactly the files written; without the metadata flag no request and no file |
| Provider.SubtitlesRecorded | Jellyfin.Plugin.Encora/Providers/EncoraMovieMetadataProvider.cs:257-280 | HasSubtitles iff a subtitle file was written; SubtitleFiles is empty or the files written |
| Provider.PartialSubtitleDownload | Jellyfin.Plugin.Encora/Providers/EncoraMovieMetadataProvider.cs:273-286 | a failed second download after a written first file leaves files written but no list assigned |
| Provider.PeopleFromCast | Jellyfin.Plugin.Encora/Providers/EncoraMovieMetadataProvider.cs:318-324 | no people without a cast; with the director option off, exactly the actors of the cast with the kept headshots |
| Provider.ImagesGate | Jellyfin.Plugin.Encora/Providers/EncoraMovieMetadataProvider.cs:147-151 | the StageMedia request is made iff a StageMedia key is set and the show id is positive, with the show id and actor ids in the URL; headshots only from an answered request |
| Provider.PosterOnlyWhenMissing | Jellyfin.Plugin.Encora/Providers/EncoraMovieMetadataProvider.cs:161-169 | the poster is written only to `folder.jpg` when that file is missing and the download succeeded |
| Provider.PosterFailureDropsHeadshots | Jellyfin.Plugin.Encora/Providers/EncoraMovieMetadataProvider.cs:162-180 | a failed poster download leaves no headshots and no file |
| Provider.PerformersAreHeadshots | Jellyfin.Plugin.Encora/Providers/EncoraMovieMetadataProvider.cs:171-174 | listed performers become the headshots when the block completes |
| TitleFormat.FormatTitleSpec | Jellyfin.Plugin.Encora/Providers/EncoraMovieMetadataProvider.cs:395-492 | what `FormatTitle` returns or throws: the date error, else every token substituted in dictionary order and the result trimmed (`DefaultTemplate`, `ShowTemplate`, `TokenTemplate`, `InvalidDateThrows`) |
| TitleFormat.DateStringsOf | Jellyfin.Plugin.Encora/Providers/EncoraMovieMetadataProvider.cs:404-465 | the date block: no renderings without a full date, the split and long-date errors, else the four renderings with the variant and matinée suffixes (`DateStringsOfParts`, `FullDateRenderings`, `AbsentDateEmptiesDateTokens`) |
| TitleFormat.LongDate | Jellyfin.Plugin.Encora/Providers/EncoraMovieMetadataProvider.cs:411-437 | `{date}`: "MMMM d, yyyy" for a known date, the month with the placeholder day, or the year alone; an impossible date throws (`KnownLongDate`, `MonthOnlyLongDate`, `YearOnlyLongDate`, `InvalidDateThrows`) |
| TitleFormat.ShowWithAct | Jellyfin.Plugin.Encora/Providers/EncoraMovieMetadataProvider.cs:467-473 | the show with " Act N" when the path matches `Act\s*(\d+)`, else unchanged (`ActSuffixFromPath`, `NoActInPath`) |
| TitleFormat.FormatTitle | Jellyfin.Plugin.Encora/Providers/EncoraMovieMetadataProvider.cs:395-492 | the title equals `FormatTitleSpec`, including the errors thrown for an empty placeholder setting or an invalid date |
| TitleFormat.BuildDateStrings | Jellyfin.Plugin.Encora/Providers/EncoraMovieMetadataProvider.cs:404-465 | the four date renderings equal `DateStringsOf`, suffixes appended in turn |
| TitleFormat.AppendSuffix | Jellyfin.Plugin.Encora/Providers/EncoraMovieMetadataProvider.cs:448-464 | appending the same suffix to all four renderings extends their shared suffix |
| TitleFormat.TemplateWithoutTokens | Jellyfin.Plugin.Encora/Providers/EncoraMovieMetadataProvider.cs:486-491 | a template without any token renders as the trimmed template |
| TitleFormat.SubstituteWithoutTokens | Jellyfin.Plugin.Encora/Providers/EncoraMovieMetadataProvider.cs:486-489 | the seven replacements leave a token-free template unchanged |
| TitleFormat.SubstituteBraceFree | Jellyfin.Plugin.Encora/Providers/EncoraMovieMetadataProvider.cs:486-489 | text without '{' is untouched by every replacement |
| TitleFormat.TokenInToken | Jellyfin.Plugin.Encora/Providers/EncoraMovieMetadataProvider.cs:475-484 | no token occurs inside another |
| TitleFormat.SubstituteToken | Jellyfin.Plugin.Encora/Providers/EncoraMovieMetadataProvider.cs:486-489 | a template that is a single token becomes that token's value |
| TitleFormat.LookupFirst | Jellyfin.Plugin.Encora/Providers/EncoraMovieMetadataProvider.cs:475-484 | the dictionary entry found is the first with that key |
| TitleFormat.TokenTemplate | Jellyfin.Plugin.Encora/Providers/EncoraMovieMetadataProvider.cs:475-491 | each of the seven tokens alone renders as its variable, trimmed; null gives "" |
| TitleFormat.ShowTemplate | Jellyfin.Plugin.Encora/Providers/EncoraMovieMetadataProvider.cs:182 | the fallback template "{show}" renders as the show with any act suffix, trimmed |
| TitleFormat.AbsentDateEmptiesDateTokens | Jellyfin.Plugin.Encora/Providers/EncoraMovieMetadataProvider.cs:398-404 | a null or blank full date gives no renderings and every date token renders as "" |
| TitleFormat.ReplaceLeadingToken | Jellyfin.Plugin.Encora/Providers/EncoraMovieMetadataProvider.cs:488 | replacing the leading token of "{a}mid{b}" keeps the rest |
| TitleFormat.ReplaceTrailingToken | Jellyfin.Plugin.Encora/Providers/EncoraMovieMetadataProvider.cs:488 | replacing a trailing token of brace-free text |
| TitleFormat.SubstituteTwoTokens | Jellyfin.Plugin.Encora/Providers/EncoraMovieMetadataProvider.cs:486-489 | "{a}mid{b}" becomes the two values around mid |
| TitleFormat.DefaultTemplate | Jellyfin.Plugin.Encora/Configuration/PluginConfiguration.cs:34 | the default template renders as show, " - ", long date, trimmed |
| TitleFormat.KnownDateParts | Jellyfin.Plugin.Encora/Providers/EncoraMovieMetadataProvider.cs:406-446 | with month and day known, ISO, US and numeric renderings order year, month and day as documented |
| TitleFormat.UnknownPartsUsePlaceholder | Jellyfin.Plugin.Encora/Providers/EncoraMovieMetadataProvider.cs:408-409 | an unknown month or day becomes two placeholder characters |
| TitleFormat.YearOnlyLongDate | Jellyfin.Plugin.Encora/Providers/EncoraMovieMetadataProvider.cs:426-433 | with the month unknown and a numeric year `{date}` is the year |
| TitleFormat.DateStringsOfParts | Jellyfin.Plugin.Encora/Providers/EncoraMovieMetadataProvider.cs:439-446 | the renderings follow from the split parts and the long date |
| TitleFormat.KnownLongDate | Jellyfin.Plugin.Encora/Providers/EncoraMovieMetadataProvider.cs:412-416 | a known valid date renders as "MMMM d, yyyy" |
| TitleFormat.FullDateRenderings | Jellyfin.Plugin.Encora/Providers/EncoraMovieMetadataProvider.cs:404-446 | a fully known "y-m-d" date gets all four renderings |
| TitleFormat.MonthOnlyLongDate | Jellyfin.Plugin.Encora/Providers/EncoraMovieMetadataProvider.cs:417-425 | a known month with unknown day renders as "MMMM xx, yyyy" |
| TitleFormat.InvalidDateThrows | Jellyfin.Plugin.Encora/Providers/EncoraMovieMetadataProvider.cs:414 | a month or day outside the calendar makes the title fail |
| TitleFormat.ActMatch | Jellyfin.Plugin.Encora/Providers/EncoraMovieMetadataProvider.cs:468 | "act" in any case, white space and digits form a match at that position, wherever it stands in the path, capturing the digits |
| TitleFormat.ActPrefix | Jellyfin.Plugin.Encora/Providers/EncoraMovieMetadataProvider.cs:468 | the "Act" and white space before the digits are skipped by the match |
| TitleFormat.NoActAtOtherLetter | Jellyfin.Plugin.Encora/Providers/EncoraMovieMetadataProvider.cs:468 | a match starts only at 'a' or 'A' |
| TitleFormat.NoActInPath | Jellyfin.Plugin.Encora/Providers/EncoraMovieMetadataProvider.cs:467-473 | a path with no match at any position leaves the show unchanged |
| TitleFormat.ActSuffixFromPath | Jellyfin.Plugin.Encora/Providers/EncoraMovieMetadataProvider.cs:467-473 | the first match anywhere in the path, "act" in any case, white space and digits, appends " Act " and those digits to the show |
| TitleFormat.NoActAtOtherSecondLetter | Jellyfin.Plugin.Encora/Providers/EncoraMovieMetadataProvider.cs:468 | a match has 'c' or 'C' as its second letter |
| TitleFormat.ActInFileName | Jellyfin.Plugin.Encora/Providers/EncoraMovieMetadataProvider.cs:467-473 | "/media/Hamilton Act 1.mkv" gives the show " Act 1" |
| TitleFormat.ActInDirectoryName | Jellyfin.Plugin.Encora/Providers/EncoraMovieMetadataProvider.cs:467-473 | the search is unanchored and runs over the whole path that `GetMetadata` passes in (`info.Path`, :201), despite the comment's "from filename": the directory name "Contact 1" gives the show " Act 1" |
| TitleFormat.WickedDateStrings | Jellyfin.Plugin.Encora/Providers/EncoraMovieMetadataProvider.cs:411-415 | 2024-12-31 renders as "December 31, 2024" |
| TitleFormat.WickedExample | Jellyfin.Plugin.Encora/Providers/EncoraMovieMetadataProvider.cs:395-492 | "Wicked" on 2024-12-31 with the default template gives "Wicked - December 31, 2024" |
| EncoraId.EncoraIdOf | Jellyfin.Plugin.Encora/Providers/EncoraMovieMetadataProvider.cs:348-387 | the id `ExtractEncoraId` returns: the path marker, else the first listed `.encora-<digits>` file, else the trimmed `.encora-id` text (`MarkerWins`, `FirstListedFileWins`, `ListingBeforeIdFile`, `IdFileTrimmed`, `IdNeverBlank`) |
| EncoraId.ExtractEncoraId | Jellyfin.Plugin.Encora/Providers/EncoraMovieMetadataProvider.cs:348-387 | returns `EncoraIdOf`: path marker, else listing in order, else the trimmed `.encora-id` text |
| EncoraId.IdNeverBlank | Jellyfin.Plugin.Encora/Providers/EncoraMovieMetadataProvider.cs:379-381 | an id found is never blank |
| EncoraId.MarkerWins | Jellyfin.Plugin.Encora/Providers/EncoraMovieMetadataProvider.cs:352-357 | a path marker's digits win over the directory |
| EncoraId.FileNamedWithId | Jellyfin.Plugin.Encora/Providers/EncoraMovieMetadataProvider.cs:366-372 | a file ".encora-<digits>" carries its digits, in any case of "encora" |
| EncoraId.FirstSomeAt | Jellyfin.Plugin.Encora/Providers/EncoraMovieMetadataProvider.cs:364-373 | the scan returns the first hit |
| EncoraId.FirstListedFileWins | Jellyfin.Plugin.Encora/Providers/EncoraMovieMetadataProvider.cs:363-373 | the first listed file with an id decides |
| EncoraId.ListingBeforeIdFile | Jellyfin.Plugin.Encora/Providers/EncoraMovieMetadataProvider.cs:359-382 | a marked file is preferred over `.encora-id` |
| EncoraId.IdFileTrimmed | Jellyfin.Plugin.Encora/Providers/EncoraMovieMetadataProvider.cs:375-382 | the `.encora-id` text is trimmed; a blank file gives no id |
| EncoraId.NoDirectoryNoFallback | Jellyfin.Plugin.Encora/Providers/EncoraMovieMetadataProvider.cs:360-361 | a bare file name has only the path marker |
| Derivations.Genres | Jellyfin.Plugin.Encora/Providers/EncoraMovieMetadataProvider.cs:211-240 | the five genres added in source order, each when its condition holds (`GenreCount`, `FlagGenresLast`) |
| Derivations.Rating | Jellyfin.Plugin.Encora/Providers/EncoraMovieMetadataProvider.cs:292-308 | "NFT Forever", "NFT" for a date after now, else "", and no rating without NFT data (`RatingCases`, `NftLapsesAtNow`) |
| Derivations.ActorIdsParam | Jellyfin.Plugin.Encora/Providers/EncoraMovieMetadataProvider.cs:134-138 | the performer ids joined by ",", or "1" without a cast (`ActorIdsRoundTrip`) |
| Derivations.SubtitleFileName | Jellyfin.Plugin.Encora/Providers/EncoraMovieMetadataProvider.cs:261-271 | `<media>.<lang>.<ext>` for an entry with a URL and a file type, none otherwise (`SubtitleNameParts`, `ShortLanguageIsEnglish`) |
| Derivations.Description | Jellyfin.Plugin.Encora/Providers/EncoraMovieMetadataProvider.cs:184-197 | the overview is never blank and always trimmed |
| Derivations.NoTextGivesDefault | Jellyfin.Plugin.Encora/Providers/EncoraMovieMetadataProvider.cs:197 | no text gives "Fetched from Encora.it" |
| Derivations.DescriptionWithNotes | Jellyfin.Plugin.Encora/Providers/EncoraMovieMetadataProvider.cs:184-196 | description, master notes, general notes in that order with their headings |
| Derivations.MasterNotesOnly | Jellyfin.Plugin.Encora/Providers/EncoraMovieMetadataProvider.cs:186-196 | with master notes only the text starts at the heading |
| Derivations.CleanAfterNewlines | Jellyfin.Plugin.Encora/Providers/EncoraMovieMetadataProvider.cs:196 | the leading newlines are removed and the rest kept |
| Derivations.CleanTrimmed | Jellyfin.Plugin.Encora/Providers/EncoraMovieMetadataProvider.cs:196 | trimmed text is kept as it is |
| Derivations.GenreCount | Jellyfin.Plugin.Encora/Providers/EncoraMovieMetadataProvider.cs:211-240 | one genre per condition that holds, at most five, none without metadata |
| Derivations.FlagGenresLast | Jellyfin.Plugin.Encora/Providers/EncoraMovieMetadataProvider.cs:226-239 | Boot Camp, Subtitled, Concert come last in that order |
| Derivations.Studios | Jellyfin.Plugin.Encora/Providers/EncoraMovieMetadataProvider.cs:311-314 | one studio iff the venue is not blank |
| Derivations.RatingCases | Jellyfin.Plugin.Encora/Providers/EncoraMovieMetadataProvider.cs:292-308 | rating set iff NFT data; "NFT Forever", "NFT" iff the date parses to after now, else "" |
| Derivations.NftLapsesAtNow | Jellyfin.Plugin.Encora/Providers/EncoraMovieMetadataProvider.cs:297-299 | an NFT date equal to now gives "" |
| Derivations.ActorIdsRoundTrip | Jellyfin.Plugin.Encora/Providers/EncoraMovieMetadataProvider.cs:134-138 | the parameter splits back into each performer's id; "1" without cast |
| Derivations.SubtitleNameParts | Jellyfin.Plugin.Encora/Providers/EncoraMovieMetadataProvider.cs:260-271 | an entry is skipped iff URL or type is blank; the name splits into base, language, lower-case type |
| Derivations.ShortLanguageIsEnglish | Jellyfin.Plugin.Encora/Providers/EncoraMovieMetadataProvider.cs:265-267 | a short or missing language gives "en" |
| Subtitles.DownloadAll | Jellyfin.Plugin.Encora/Providers/EncoraMovieMetadataProvider.cs:259-282 | the download loop as a value: skipped entries, files written in order, and nothing after the first failure; no more files than entries (`FailureStops`, `AllWritten`, `FailureAfterWrite`) |
| Subtitles.WriteSubtitles | Jellyfin.Plugin.Encora/Providers/EncoraMovieMetadataProvider.cs:257-280 | the files written equal `DownloadAll`; HasSubtitles gains them; SubtitleFiles assigned only on completion |
| Subtitles.FailureStops | Jellyfin.Plugin.Encora/Providers/EncoraMovieMetadataProvider.cs:273-286 | after a failed download the later entries change nothing |
| Subtitles.SkippedEntry | Jellyfin.Plugin.Encora/Providers/EncoraMovieMetadataProvider.cs:260-263 | an entry without URL or type is skipped |
| Subtitles.AllWritten | Jellyfin.Plugin.Encora/Providers/EncoraMovieMetadataProvider.cs:257-280 | all usable entries downloaded: one file each, in order, with its name |
| Subtitles.FirstDownloadFails | Jellyfin.Plugin.Encora/Providers/EncoraMovieMetadataProvider.cs:273-286 | a first failed download writes nothing |
| Subtitles.FailureAfterWrite | Jellyfin.Plugin.Encora/Providers/EncoraMovieMetadataProvider.cs:273-286 | a failure after one file keeps it and marks the loop failed |
| Cast.Role | Jellyfin.Plugin.Encora/Models/EncoraCastMember.cs:61-65 | the character name, prefixed by the status abbreviation when there is one (`RoleWithAbbreviation`, `RoleWithoutAbbreviation`) |
| Cast.ActorFor | Jellyfin.Plugin.Encora/Models/EncoraCastMember.cs:59-79 | the actor a named member becomes: name, role and the first matching headshot (`HeadshotOfFirstMatch`, `NoHeadshot`) |
| Cast.CastPeople | Jellyfin.Plugin.Encora/Models/EncoraCastMember.cs:48-98 | the people in the order they are added: the actors, then the director when the option is on and the master is not a source label (`ActorsFollowNamed`, `DirectorAppended`, `SkippedMasterNoDirector`) |
| Cast.MapCastToResult | Jellyfin.Plugin.Encora/Models/EncoraCastMember.cs:45-104 | the result's people are the old ones followed by `CastPeople`; metadata flag and item unchanged |
| Cast.CollectPeople | Jellyfin.Plugin.Encora/Models/EncoraCastMember.cs:48-98 | the collected list is the actors then the optional director |
| Cast.MapMember | Jellyfin.Plugin.Encora/Models/EncoraCastMember.cs:52-80 | a named member becomes its actor, an unnamed one nothing |
| Cast.FirstHeadshot | Jellyfin.Plugin.Encora/Models/EncoraCastMember.cs:76 | the headshot found carries the id and is in the list; none iff no headshot carries it |
| Cast.Actors | Jellyfin.Plugin.Encora/Models/EncoraCastMember.cs:50-81 | at most one actor per member, each of kind Actor with a non-blank name |
| Cast.ActorsFollowNamed | Jellyfin.Plugin.Encora/Models/EncoraCastMember.cs:50-81 | exactly the named members become actors, in order |
| Cast.AllNamedAllMapped | Jellyfin.Plugin.Encora/Models/EncoraCastMember.cs:59-80 | a fully named cast gives one actor per member |
| Cast.UnnamedAddsNobody | Jellyfin.Plugin.Encora/Models/EncoraCastMember.cs:59 | a member without a performer name adds nobody |
| Cast.FlagOffOnlyActors | Jellyfin.Plugin.Encora/Models/EncoraCastMember.cs:84 | with the option off only actors, one per named member |
| Cast.RoleWithAbbreviation | Jellyfin.Plugin.Encora/Models/EncoraCastMember.cs:61-65 | the role is the abbreviation, a space and the character |
| Cast.RoleWithoutAbbreviation | Jellyfin.Plugin.Encora/Models/EncoraCastMember.cs:61 | without an abbreviation the role is the character |
| Cast.FirstHeadshotAt | Jellyfin.Plugin.Encora/Models/EncoraCastMember.cs:76 | the first headshot with the id decides |
| Cast.HeadshotOfFirstMatch | Jellyfin.Plugin.Encora/Models/EncoraCastMember.cs:74-77 | a positive id gets the first match's URL |
| Cast.NoHeadshot | Jellyfin.Plugin.Encora/Models/EncoraCastMember.cs:74 | no image for id <= 0, no headshots, or no match |
| Cast.DirectorAppended | Jellyfin.Plugin.Encora/Models/EncoraCastMember.cs:84-97 | a master that is not a source label is appended as Director |
| Cast.NullMasterIsUnnamedDirector | Jellyfin.Plugin.Encora/Models/EncoraCastMember.cs:86-96 | a null master gives a director named "" |
| Cast.SkippedMasterNoDirector | Jellyfin.Plugin.Encora/Models/EncoraCastMember.cs:86-89 | a source label in any case with white space around adds no director |
| Nfo.NfoMovie | Jellyfin.Plugin.Encora/Providers/NfoMetadataProvider.cs:56-113 | the movie read from a `<movie>` element: scalars, non-blank genres, "NFT" for any certification, the first poster thumb (`AllGenresKept`, `CertificationGivesNft`, `FirstPosterDecides`) |
| Nfo.ProviderResult | Jellyfin.Plugin.Encora/Providers/NfoMetadataProvider.cs:16-138 | what `NfoMetadataProvider.GetMetadata` returns: the empty result without a path, directory or movie sidecar, else metadata, movie and actors (`MetadataIffSidecar`, `SidecarPreference`) |
| Nfo.GetMetadata | Jellyfin.Plugin.Encora/Providers/NfoMetadataProvider.cs:16-138 | a fresh result equal to `ProviderResult` |
| Nfo.ReadSidecar | Jellyfin.Plugin.Encora/Providers/NfoMetadataProvider.cs:30-54 | returns `SidecarRoot`: the `<movie>` root of `movie.nfo` or `<name>.nfo` |
| Nfo.NewNfoMovie | Jellyfin.Plugin.Encora/Providers/NfoMetadataProvider.cs:56-83 | a fresh movie equal to `NfoScalars` |
| Nfo.BuildNfoMovie | Jellyfin.Plugin.Encora/Providers/NfoMetadataProvider.cs:56-112 | a fresh movie equal to `NfoMovie` |
| Nfo.AddGenres | Jellyfin.Plugin.Encora/Providers/NfoMetadataProvider.cs:86-93 | appends the non-blank genres in order, nothing else changes |
| Nfo.RateCertifications | Jellyfin.Plugin.Encora/Providers/NfoMetadataProvider.cs:96-103 | rating "NFT" iff a certification is not blank, else unchanged |
| Nfo.AddActors | Jellyfin.Plugin.Encora/Providers/NfoMetadataProvider.cs:115-133 | appends `NfoPeople` to the result's people |
| Nfo.SidecarRoot | Jellyfin.Plugin.Encora/Providers/NfoMetadataProvider.cs:30-54 | a root found is a `<movie>` element |
| Nfo.NonBlankValues | Jellyfin.Plugin.Encora/Providers/NfoMetadataProvider.cs:86-93 | every value kept is not blank and there are no more than the elements |
| Nfo.PosterThumb | Jellyfin.Plugin.Encora/Providers/NfoMetadataProvider.cs:106-107 | the thumb found is a poster thumb of the list |
| Nfo.NfoPeople | Jellyfin.Plugin.Encora/Providers/NfoMetadataProvider.cs:115-133 | every person is an actor with a non-blank name |
| Nfo.SidecarPreference | Jellyfin.Plugin.Encora/Providers/NfoMetadataProvider.cs:31-40 | `movie.nfo` first, `<name>.nfo` second |
| Nfo.RootAcceptedIffMovie | Jellyfin.Plugin.Encora/Providers/NfoMetadataProvider.cs:51 | a root is used iff its name is "movie" ignoring case |
| Nfo.UpperCaseRootAccepted | Jellyfin.Plugin.Encora/Providers/NfoMetadataProvider.cs:51 | `<MOVIE>` is accepted |
| Nfo.MetadataIffSidecar | Jellyfin.Plugin.Encora/Providers/NfoMetadataProvider.cs:18-54 | HasMetadata iff a `<movie>` sidecar was found; otherwise the empty result |
| Nfo.PremiereFallback | Jellyfin.Plugin.Encora/Providers/NfoMetadataProvider.cs:64-71 | premiered, else releasedate, else none |
| Nfo.YearParsed | Jellyfin.Plugin.Encora/Providers/NfoMetadataProvider.cs:73-76 | an Int32 `<year>` sets that year |
| Nfo.YearUnset | Jellyfin.Plugin.Encora/Providers/NfoMetadataProvider.cs:73-76 | an unparsable year stays unset |
| Nfo.AllGenresKept | Jellyfin.Plugin.Encora/Providers/NfoMetadataProvider.cs:86-93 | with no blank genre, all genres in order |
| Nfo.BlankGenreDropped | Jellyfin.Plugin.Encora/Providers/NfoMetadataProvider.cs:89 | a blank genre adds nothing |
| Nfo.CertificationGivesNft | Jellyfin.Plugin.Encora/Providers/NfoMetadataProvider.cs:96-103 | any non-blank certification gives "NFT" |
| Nfo.NoCertificationNoRating | Jellyfin.Plugin.Encora/Providers/NfoMetadataProvider.cs:96-103 | no non-blank certification leaves the rating unset |
| Nfo.PosterThumbAt | Jellyfin.Plugin.Encora/Providers/NfoMetadataProvider.cs:106-107 | the first poster thumb decides |
| Nfo.FirstPosterDecides | Jellyfin.Plugin.Encora/Providers/NfoMetadataProvider.cs:106-112 | the first poster thumb's text is the image; blank means no image even with a later poster |
| Nfo.AllActorsKept | Jellyfin.Plugin.Encora/Providers/NfoMetadataProvider.cs:115-133 | a fully named actor list gives one person each, in order, with role and thumb |
| Nfo.UnnamedActorDropped | Jellyfin.Plugin.Encora/Providers/NfoMetadataProvider.cs:122 | an actor without a name adds nobody |
| Entities.Movie.constructor | Jellyfin.Plugin.Encora/Providers/EncoraMovieMetadataProvider.cs:199-208 | the object initializer: the new movie holds exactly the given properties |
| Entities.Movie.AddGenre | Jellyfin.Plugin.Encora/Providers/EncoraMovieMetadataProvider.cs:218 | appends the genre, nothing else changes |
| Entities.Movie.AddStudio | Jellyfin.Plugin.Encora/Providers/EncoraMovieMetadataProvider.cs:313 | appends the studio, nothing else changes |
| Entities.Movie.AddImage | Jellyfin.Plugin.Encora/Providers/NfoMetadataProvider.cs:110-111 | appends a primary image, nothing else changes |
| Entities.Movie.SetProviderId | Jellyfin.Plugin.Encora/Providers/EncoraMovieMetadataProvider.cs:213-214 | the key maps to the value, nothing else changes |
| Entities.MetadataResult.constructor | Jellyfin.Plugin.Encora/Providers/EncoraMovieMetadataProvider.cs:83 | a new result is empty: no metadata, no item, no people |
| Entities.MetadataResult.AddPerson | Jellyfin.Plugin.Encora/Models/EncoraCastMember.cs:102 | appends the person, nothing else changes |
| Xml.ChildrenNamedExactly | Jellyfin.Plugin.Encora/Providers/NfoMetadataProvider.cs:86 | `Elements(name)` yields exactly the children with that name |
| Text.ReplaceAll | Jellyfin.Plugin.Encora/Providers/EncoraMovieMetadataProvider.cs:488 | ordinal `String.Replace`: every non-overlapping occurrence, left to right (`Text.ReplaceAbsent`, `Text.ReplaceSkips`, `Text.ReplaceHead`) |
| Text.TryParseInt32 | Jellyfin.Plugin.Encora/Providers/NfoMetadataProvider.cs:73 | `int.TryParse`: a value read is within the 32-bit range |
| Text.ParseIntToString | Jellyfin.Plugin.Encora/Providers/NfoMetadataProvider.cs:73 | `int.TryParse` reads back `int.ToString` |
| Text.TrimOf | Jellyfin.Plugin.Encora/Models/EncoraCastMember.cs:86 | `Trim` removes exactly the blank margins |
| Text.TrimTwice | Jellyfin.Plugin.Encora/Providers/EncoraMovieMetadataProvider.cs:491 | `Trim` is idempotent |
| Text.SplitJoin | Jellyfin.Plugin.Encora/Providers/EncoraMovieMetadataProvider.cs:137-138 | `Split` undoes `Join` when no piece holds the separator |
| Text.Trim | Jellyfin.Plugin.Encora/Providers/EncoraMovieMetadataProvider.cs:491 | the trim is empty iff the text is blank, and otherwise starts and ends with a non-white-space character |
| Text.ToLower | Jellyfin.Plugin.Encora/Models/EncoraCastMember.cs:86 | `ToLowerInvariant` keeps the length and lower-cases each character |
| Text.Split | Jellyfin.Plugin.Encora/Providers/EncoraMovieMetadataProvider.cs:406 | `Split('-')` gives at least one piece, none holding the separator, that join back to the text |
| Text.IntToString | Jellyfin.Plugin.Encora/Providers/EncoraMovieMetadataProvider.cs:135 | `ToString(InvariantCulture)` is non-empty, comma-free, and all digits for a non-negative id |
| Paths.FileName | Jellyfin.Plugin.Encora/Providers/EncoraMovieMetadataProvider.cs:366 | `Path.GetFileName` is a separator-free tail of the path |
| Paths.FileNameWithoutExtension | Jellyfin.Plugin.Encora/Providers/EncoraMovieMetadataProvider.cs:528 | `Path.GetFileNameWithoutExtension` holds no separator |
| Paths.Combine | Jellyfin.Plugin.Encora/Providers/EncoraMovieMetadataProvider.cs:141 | `Path.Combine(dir, name)` ends with the name |
| Xml.ElementNamed | Jellyfin.Plugin.Encora/Providers/NfoMetadataProvider.cs:58 | `Element(name)` is the first of `Elements(name)`, and none iff there is no such child |
| Xml.AttributeValue | Jellyfin.Plugin.Encora/Providers/NfoMetadataProvider.cs:107 | `Attribute(name)` has a value iff an attribute of that name exists |
| TitleFormat.SplitDate | Jellyfin.Plugin.Encora/Providers/EncoraMovieMetadataProvider.cs:406-409 | the split fails iff the placeholder setting is empty and a placeholder is needed |
| TitleFormat.Year4 | Jellyfin.Plugin.Encora/Providers/EncoraMovieMetadataProvider.cs:415 | the "yyyy" year has at least four digits |
| EncoraId.PathMarkerId | Jellyfin.Plugin.Encora/Providers/EncoraMovieMetadataProvider.cs:352-357 | an id from the path is a non-empty run of digits |
| EncoraId.FileMarkerId | Jellyfin.Plugin.Encora/Providers/EncoraMovieMetadataProvider.cs:367-372 | an id from a file name is a non-empty run of digits |
| EncoraId.FirstFileMarker | Jellyfin.Plugin.Encora/Providers/EncoraMovieMetadataProvider.cs:364-373 | an id from the listing is a non-empty run of digits |
| EncoraId.FirstSome | Jellyfin.Plugin.Encora/Providers/EncoraMovieMetadataProvider.cs:364-373 | the scan's hit comes from a listed item; none iff no item gives an id |
| EncoraId.IdFileContent | Jellyfin.Plugin.Encora/Providers/EncoraMovieMetadataProvider.cs:376-382 | an id from `.encora-id` is trimmed and not blank |
| Derivations.CleanDescription | Jellyfin.Plugin.Encora/Providers/EncoraMovieMetadataProvider.cs:196-197 | the cleaned overview is never blank and always trimmed |
| Derivations.SubtitleLanguage | Jellyfin.Plugin.Encora/Providers/EncoraMovieMetadataProvider.cs:265-267 | the language part is two characters |
| Derivations.ActorIds | Jellyfin.Plugin.Encora/Providers/EncoraMovieMetadataProvider.cs:134-136 | one id text per cast member, in cast order |
| Cast.Named | Jellyfin.Plugin.Encora/Models/EncoraCastMember.cs:59 | the named members, each from the cast, and every named member of the cast |
| Nfo.NfoActor | Jellyfin.Plugin.Encora/Providers/NfoMetadataProvider.cs:115-133 | an `<actor>` gives a person only with a non-blank name, as an actor |
| Nfo.NfoStudios | Jellyfin.Plugin.Encora/Providers/NfoMetadataProvider.cs:78-83 | at most one studio, never blank |
| Nfo.PosterImages | Jellyfin.Plugin.Encora/Providers/NfoMetadataProvider.cs:105-112 | at most one primary image |
| Paths.DirectoryName | Jellyfin.Plugin.Encora/Providers/EncoraMovieMetadataProvider.cs:115 | a blank path has no directory; a name without separator has directory "" |

## Left out

- HTTP, JSON and file contents: each request is an outcome in `Provider.Remote`. Headers, bearer tokens, status codes other than success or failure, and the bytes written are not modelled.
- The URLs of the poster and of each subtitle file are not part of the request trace. Only the provider's own recording, StageMedia and subtitle-list requests are recorded.
- `ThumbGenerator.GenerateThumbPng` is recorded only as a thumbnail request; its image work is not modelled.
- `StageMediaMovieImageProvider` and `Plugin.cs` are not part of this model.
- Culture-dependent parsing (`DateTime.TryParse`, `TextInfo.ToTitleCase`) and the clock are parameters (`Models.Culture`, `now`).
- `XDocument.Parse`: sidecars are given already parsed; a malformed sidecar (which throws) is not modelled.
- Null elements inside JSON arrays (cast, performers, subtitles) are not modelled.
- Logging and cancellation tokens are left out.
- `NfoMetadataProvider.GetMetadata` with a null `info` (which throws) is not modelled; the method takes a `MovieInfo`.
- Entities.Movie.AddGenre: a plain append; Jellyfin's own duplicate check is not modelled.
- Entities.Movie.AddStudio: a plain append; Jellyfin's own duplicate check is not modelled.
- Entities.MetadataResult.AddPerson: a plain append. Jellyfin's own merging of people is not modelled, nor its rejection of a person with a null or empty name. That rejection matters in one case: with `AddMasterDirector` on and `Master` null or "", `MapCastToResult` adds a director named "" (`Cast.NullMasterIsUnnamedDirector`). Jellyfin's `AddPerson` would then throw inside `GetMetadata`'s `try`, and the catch would return the sidecar result. The model returns the Encora movie with that director.
- Paths.DirectoryName: '/'-separated paths only; Windows roots and '\\' are not modelled.
- Text.ToLower: `ToLowerInvariant` and case-insensitive comparison on ASCII letters only.
- Text.TryParseInt32: `NumberStyles.Integer` with the invariant culture; culture-specific signs are not modelled.
- Regular expressions (`{e-(\d+)}`, `\.encora-(\d+)`, `Act\s*(\d+)`) are modelled with ASCII digits and the white space of `Text.IsWhiteSpace`.
- TitleFormat.FormatTitle: `DateTime.ToString("MMMM")` uses the invariant culture's English month names; other calendars are not modelled.
- EncoraId.ExtractEncoraId: the directory listing and the `.encora-id` read always succeed here. `Directory.GetFiles` and `File.ReadAllText` can throw for a missing or unreadable directory or file, and that exception is not modelled.
- Provider.GetMetadata: the id lookup runs before the `try`, so an exception from it leaves `GetMetadata` with no sidecar fallback and no thumbnail request; the model always returns an outcome. A director named "" rejected by Jellyfin's `AddPerson` would send the source to the sidecar result; the model keeps the Encora movie (see `Entities.MetadataResult.AddPerson` above).
- TitleFormat.Placeholder: `new string(dateReplaceChar[0], 2)` repeats the first UTF-16 code unit of `DateReplaceChar`. The model repeats its first character, so the two differ when that character lies outside the Basic Multilingual Plane.
- Provider.Remote: the outcome of a subtitle download is a function of the subtitle's URL alone. Two entries with the same URL therefore share an outcome. A write failure that depends on the target path rather than on the URL cannot be expressed.
- Provider.ImagesOf: the model assumes the StageMedia answer can carry both posters and performers. In `StageMediaImages` (Models/StageMediaImages.cs:27, :33), `Posters` is get-only and `Performers` has a private setter. With default `System.Text.Json` settings neither is filled from JSON, so the branches at EncoraMovieMetadataProvider.cs:162-174 may never be taken. `headshots = images.Performers` also assigns a `ReadOnlyCollection` to a `Collection`. The JSON layer is not modelled, and none of this was executed.
- Derivations.SubtitleLanguage: `Length >= 2` and `Substring(0, 2)` count UTF-16 code units in the source, and Unicode scalar values here. The two differ for a language code that starts with a character outside the Basic Multilingual Plane.
