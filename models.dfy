/**
 * The records the Encora and StageMedia services return, the plugin's
 * configuration, and the host facilities (clock, culture-dependent parsing)
 * that the resolution logic takes as inputs.
 */
module Models {
  import opened Wrappers

  /** A C# `int`. */
  type Int32 = n: int | -0x8000_0000 <= n < 0x8000_0000

  datatype EncoraDate = EncoraDate(
    fullDate: Option<string>,
    monthKnown: bool,
    dayKnown: bool,
    dateVariant: Option<string>,
    time: Option<string>)

  datatype EncoraNft = EncoraNft(nftDate: Option<string>, nftForever: bool)

  datatype EncoraPerformer = EncoraPerformer(
    id: Int32, name: Option<string>, slug: Option<string>, url: Option<string>)

  datatype EncoraCharacter = EncoraCharacter(
    id: Int32, name: Option<string>, slug: Option<string>, url: Option<string>, order: Int32)

  datatype EncoraCastStatus = EncoraCastStatus(statusLabel: Option<string>, abbreviation: Option<string>)

  datatype EncoraCastMember = EncoraCastMember(
    performer: Option<EncoraPerformer>,
    character: Option<EncoraCharacter>,
    status: Option<EncoraCastStatus>)

  datatype EncoraMetadata = EncoraMetadata(
    showId: Int32,
    isOpening: bool,
    isClosing: bool,
    isPreview: bool,
    isConcert: bool,
    isNfs: bool,
    venue: Option<string>,
    city: Option<string>,
    mediaType: Option<string>,
    recordingType: Option<string>,
    amountRecorded: Option<string>,
    giftingStatus: Option<string>,
    limitedStatus: Option<string>,
    bootCampRecommended: bool,
    hasScreenshots: bool,
    hasSubtitles: bool,
    ownersCount: Int32,
    wantersCount: Int32,
    showDescription: Option<string>)

  datatype EncoraRecording = EncoraRecording(
    id: Int32,
    show: Option<string>,
    tour: Option<string>,
    date: Option<EncoraDate>,
    master: Option<string>,
    nft: Option<EncoraNft>,
    cast: Option<seq<EncoraCastMember>>,
    notes: Option<string>,
    masterNotes: Option<string>,
    releaseFormat: Option<string>,
    metadata: Option<EncoraMetadata>)

  datatype EncoraSubtitles = EncoraSubtitles(
    recordingId: Int32,
    language: Option<string>,
    author: Option<string>,
    fileType: Option<string>,
    url: Option<string>)

  datatype StageMediaPerformer = StageMediaPerformer(id: Int32, url: Option<string>)

  datatype StageMediaImages = StageMediaImages(
    posters: seq<string>,
    performers: Option<seq<StageMediaPerformer>>)

  /** The plugin settings; a property the host left null is `None`. */
  datatype PluginConfiguration = PluginConfiguration(
    encoraApiKey: Option<string>,
    stageMediaApiKey: Option<string>,
    addMasterDirector: bool,
    titleFormat: Option<string>,
    dateReplaceChar: Option<string>)

  /** The settings a fresh configuration holds. */
  const DefaultConfiguration: PluginConfiguration :=
    PluginConfiguration(Some(""), Some(""), false, Some("{show} - {date}"), Some("x"))

  /** A calendar instant, ordered chronologically. */
  datatype DateTime = DateTime(year: int, month: int, day: int, tickOfDay: int)

  /** `a > b` on `DateTime`. */
  predicate IsAfter(a: DateTime, b: DateTime) {
    a.year > b.year
    || (a.year == b.year && a.month > b.month)
    || (a.year == b.year && a.month == b.month && a.day > b.day)
    || (a.year == b.year && a.month == b.month && a.day == b.day && a.tickOfDay > b.tickOfDay)
  }

  /** The culture-dependent library calls: `DateTime.TryParse` and
      `TextInfo.ToTitleCase` of the current culture. */
  datatype Culture = Culture(
    tryParseDate: string -> Option<DateTime>,
    toTitleCase: string -> string)

  /** `DateTime.TryParse`, which fails on null. */
  function ParseDate(culture: Culture, s: Option<string>): Option<DateTime> {
    if s.None? then None else culture.tryParseDate(s.value)
  }

  /** Settings read through `Plugin.Instance?.Configuration`, with the fallbacks
      the provider applies when the plugin instance or a value is missing. */
  function TitleTemplate(config: Option<PluginConfiguration>): string {
    if config.None? then "{show}" else config.value.titleFormat.GetOr("{show}")
  }

  function DateReplaceChar(config: Option<PluginConfiguration>): string {
    if config.None? then "x" else config.value.dateReplaceChar.GetOr("x")
  }

  function EncoraApiKey(config: Option<PluginConfiguration>): Option<string> {
    if config.None? then None else config.value.encoraApiKey
  }

  function StageMediaApiKey(config: Option<PluginConfiguration>): Option<string> {
    if config.None? then None else config.value.stageMediaApiKey
  }

  function AddMasterDirector(config: Option<PluginConfiguration>): bool {
    config.Some? && config.value.addMasterDirector
  }
}
