/**
 * The movie fields `EncoraMovieMetadataProvider.GetMetadata` derives from a
 * recording: description, genres, rating, studio, the actor-id query parameter
 * sent for headshots, and the names given to downloaded subtitle files.
 */
module Derivations {
  import opened Wrappers
  import opened Text
  import opened Models

  // ---------------------------------------------------------------------------
  // Description

  const DefaultDescription: string := "Fetched from Encora.it"

  /** `description += text`: a null description counts as empty. */
  function Append(description: Option<string>, text: string): Option<string> {
    Some(description.GetOr("") + text)
  }

  /** The show description with the notes appended, before trimming. */
  function RawDescription(recording: EncoraRecording): Option<string> {
    var base := if recording.metadata.None? then None else recording.metadata.value.showDescription;
    var withMaster :=
      if !IsNullOrEmpty(recording.masterNotes) then Append(base, "\n\nMaster Notes: \n" + recording.masterNotes.value)
      else base;
    if !IsNullOrEmpty(recording.notes) then Append(withMaster, "\n\nGeneral Notes: \n" + recording.notes.value)
    else withMaster
  }

  /** `TrimStart('\n').Trim()`, then the default text in place of a blank or null result. */
  function CleanDescription(raw: Option<string>): (r: string)
    ensures !IsBlank(r) && Trimmed(r)
  {
    assert !IsBlank(DefaultDescription) && Trimmed(DefaultDescription) by {
      DefaultIsText();
    }
    if raw.None? then DefaultDescription
    else
      // `IsNullOrWhiteSpace` of a trimmed text: blank exactly when empty
      var t := Trim(TrimLeading(raw.value, Newline));
      if t == [] then DefaultDescription else t
  }

  lemma DefaultIsText()
    ensures !IsBlank(DefaultDescription) && Trimmed(DefaultDescription)
  {
    assert DefaultDescription[0] == 'F';
    assert DefaultDescription[|DefaultDescription| - 1] == 't';
  }

  /** The overview: leading newlines stripped, trimmed, or the default text when blank. */
  function Description(recording: EncoraRecording): (r: string)
    ensures !IsBlank(r) && Trimmed(r)
  {
    CleanDescription(RawDescription(recording))
  }

  /** Without any text to show, the overview is the default text. */
  lemma NoTextGivesDefault(recording: EncoraRecording)
    requires recording.metadata.None? || IsNullOrWhiteSpace(recording.metadata.value.showDescription)
    requires IsNullOrEmpty(recording.masterNotes) && IsNullOrEmpty(recording.notes)
    ensures Description(recording) == DefaultDescription
  {
    var raw := RawDescription(recording);
    assert raw.None? || IsBlank(raw.value);
    if raw.Some? {
      var t := TrimLeading(raw.value, Newline);
      assert IsBlank(t) by {
        forall i | 0 <= i < |t| ensures IsWhiteSpace(t[i]) {
          assert t[i] == raw.value[|raw.value| - |t| + i];
        }
      }
      assert Trim(t) == [];
    }
    assert Description(recording) == CleanDescription(raw);
  }

  /** A trimmed description with both notes reads: description, master notes, general notes. */
  lemma DescriptionWithNotes(recording: EncoraRecording, d: string, master: string, general: string)
    requires recording.metadata.Some? && recording.metadata.value.showDescription == Some(d)
    requires recording.masterNotes == Some(master) && recording.notes == Some(general)
    requires d != [] && Trimmed(d) && master != [] && general != [] && Trimmed(general)
    ensures Description(recording)
      == d + "\n\nMaster Notes: \n" + master + "\n\nGeneral Notes: \n" + general
  {
    var withMaster := d + ("\n\nMaster Notes: \n" + master);
    var s := d + "\n\nMaster Notes: \n" + master + "\n\nGeneral Notes: \n" + general;
    assert RawDescription(recording) == Some(s) by {
      assert RawDescription(recording) == Some(withMaster + ("\n\nGeneral Notes: \n" + general));
      assert withMaster + ("\n\nGeneral Notes: \n" + general) == s;
    }
    assert Trimmed(s) by {
      assert s[0] == d[0] && s[|s| - 1] == general[|general| - 1];
    }
    CleanTrimmed(s);
  }

  /** Trimmed text is kept as it is. */
  lemma CleanTrimmed(s: string)
    requires s != [] && Trimmed(s)
    ensures CleanDescription(Some(s)) == s
  {
    assert TrimLeading(s, Newline) == s by {
      assert !InClass(s[0], Newline);
    }
    TrimTrimmed(s);
  }

  /** With master notes only, the two leading newlines go and the text starts at the heading. */
  lemma MasterNotesOnly(recording: EncoraRecording, master: string)
    requires recording.metadata.None? || recording.metadata.value.showDescription.None?
    requires recording.masterNotes == Some(master) && master != [] && Trimmed(master)
    requires IsNullOrEmpty(recording.notes)
    ensures Description(recording) == "Master Notes: \n" + master
  {
    assert RawDescription(recording) == Some("" + ("\n\nMaster Notes: \n" + master));
    CleanMasterNotes(master);
  }

  lemma CleanMasterNotes(master: string)
    requires master != [] && Trimmed(master)
    ensures CleanDescription(Some("" + ("\n\nMaster Notes: \n" + master))) == "Master Notes: \n" + master
  {
    var body := "Master Notes: \n" + master;
    assert "" + ("\n\nMaster Notes: \n" + master) == "\n\n" + body by {
      assert "\n\nMaster Notes: \n" == "\n\n" + "Master Notes: \n";
    }
    CleanAfterNewlines(body);
  }

  /** Text that starts with neither newline nor white space and ends trimmed is
      what remains after two leading newlines are cleaned off. */
  lemma CleanAfterNewlines(body: string)
    requires body != [] && Trimmed(body)
    ensures CleanDescription(Some("\n\n" + body)) == body
  {
    assert TrimLeading("\n\n" + body, Newline) == body by {
      TrimLeadingOf("\n\n", body, Newline);
    }
    TrimTrimmed(body);
  }

  // ---------------------------------------------------------------------------
  // Genres and studio

  /** The genres added, in order: title-cased recording type and amount recorded,
      then "Boot Camp", "Subtitled" and "Concert" for the flags set; none without metadata. */
  function Genres(metadata: Option<EncoraMetadata>, culture: Culture): seq<string> {
    if metadata.None? then []
    else
      var m := metadata.value;
      (if !IsNullOrWhiteSpace(m.recordingType) then [culture.toTitleCase(m.recordingType.value)] else [])
      + (if !IsNullOrWhiteSpace(m.amountRecorded) then [culture.toTitleCase(m.amountRecorded.value)] else [])
      + (if m.bootCampRecommended then ["Boot Camp"] else [])
      + (if m.hasSubtitles then ["Subtitled"] else [])
      + (if m.isConcert then ["Concert"] else [])
  }

  /** One genre per condition that holds, so at most five. */
  lemma GenreCount(metadata: Option<EncoraMetadata>, culture: Culture)
    ensures metadata.None? ==> Genres(metadata, culture) == []
    ensures metadata.Some? ==> (|Genres(metadata, culture)|
      == (if !IsNullOrWhiteSpace(metadata.value.recordingType) then 1 else 0)
       + (if !IsNullOrWhiteSpace(metadata.value.amountRecorded) then 1 else 0)
       + (if metadata.value.bootCampRecommended then 1 else 0)
       + (if metadata.value.hasSubtitles then 1 else 0)
       + (if metadata.value.isConcert then 1 else 0))
    ensures |Genres(metadata, culture)| <= 5
  {
  }

  /** The flag genres come last, in the order Boot Camp, Subtitled, Concert. */
  lemma FlagGenresLast(metadata: Option<EncoraMetadata>, culture: Culture)
    requires metadata.Some?
    requires metadata.value.bootCampRecommended && metadata.value.hasSubtitles && metadata.value.isConcert
    ensures var g := Genres(metadata, culture);
      |g| >= 3 && g[|g| - 3..] == ["Boot Camp", "Subtitled", "Concert"]
  {
  }

  /** The venue, when not blank, as the only studio. */
  function Studios(metadata: Option<EncoraMetadata>): (r: seq<string>)
    ensures |r| <= 1
    ensures r != [] <==> metadata.Some? && !IsNullOrWhiteSpace(metadata.value.venue)
  {
    if metadata.Some? && !IsNullOrWhiteSpace(metadata.value.venue) then [metadata.value.venue.value] else []
  }

  // ---------------------------------------------------------------------------
  // Rating

  /** The official rating: unset without NFT data, "NFT Forever", "NFT" while the
      NFT date lies ahead of `now`, and "" otherwise. */
  function Rating(nft: Option<EncoraNft>, culture: Culture, now: DateTime): Option<string> {
    if nft.None? then None
    else if nft.value.nftForever then Some("NFT Forever")
    else if !IsNullOrWhiteSpace(nft.value.nftDate)
      && ParseDate(culture, nft.value.nftDate).Some?
      && IsAfter(ParseDate(culture, nft.value.nftDate).value, now)
    then Some("NFT")
    else Some("")
  }

  /** The rating is set exactly when NFT data is present, and is "NFT" exactly when
      the NFT is not forever and its date parses to a moment after `now`. */
  lemma RatingCases(nft: Option<EncoraNft>, culture: Culture, now: DateTime)
    ensures Rating(nft, culture, now).None? <==> nft.None?
    ensures Rating(nft, culture, now) == Some("NFT Forever") <==> nft.Some? && nft.value.nftForever
    ensures Rating(nft, culture, now) == Some("NFT") <==>
      nft.Some? && !nft.value.nftForever && nft.value.nftDate.Some? && !IsBlank(nft.value.nftDate.value)
      && culture.tryParseDate(nft.value.nftDate.value).Some?
      && IsAfter(culture.tryParseDate(nft.value.nftDate.value).value, now)
  {
  }

  /** An NFT date equal to `now` has already lapsed: the rating is "". */
  lemma NftLapsesAtNow(nft: EncoraNft, culture: Culture, now: DateTime)
    requires !nft.nftForever && nft.nftDate.Some? && culture.tryParseDate(nft.nftDate.value) == Some(now)
    ensures Rating(Some(nft), culture, now) == Some("")
  {
  }

  // ---------------------------------------------------------------------------
  // Actor ids for the headshot request

  /** A performer id as text; a cast entry without a performer gives "" (a null in `string.Join`). */
  function PerformerIdText(member: EncoraCastMember): string {
    if member.performer.None? then "" else IntToString(member.performer.value.id)
  }

  function ActorIds(cast: seq<EncoraCastMember>): (ids: seq<string>)
    ensures |ids| == |cast| && forall i :: 0 <= i < |cast| ==> ids[i] == PerformerIdText(cast[i])
  {
    seq(|cast|, i requires 0 <= i < |cast| => PerformerIdText(cast[i]))
  }

  /** The `actor_ids` query value: the ids joined by commas, or "1" without cast. */
  function ActorIdsParam(cast: Option<seq<EncoraCastMember>>): string {
    if cast.Some? && |cast.value| > 0 then Join(ActorIds(cast.value), ',') else "1"
  }

  /** The parameter splits back into one id per cast entry, each reading back as the
      performer's id; without cast it is "1". */
  lemma ActorIdsRoundTrip(cast: Option<seq<EncoraCastMember>>)
    ensures cast.None? || cast.value == [] ==> ActorIdsParam(cast) == "1"
    ensures cast.Some? && cast.value != [] ==>
      var parts := Split(ActorIdsParam(cast), ',');
      |parts| == |cast.value|
      && forall i :: 0 <= i < |parts| ==>
        (cast.value[i].performer.None? ==> parts[i] == "")
        && (cast.value[i].performer.Some? ==> TryParseInt32(Some(parts[i])) == Some(cast.value[i].performer.value.id as int))
  {
    if cast.Some? && cast.value != [] {
      var ids := ActorIds(cast.value);
      assert forall i :: 0 <= i < |ids| ==> ',' !in ids[i];
      SplitJoin(ids, ',');
      forall i | 0 <= i < |ids| && cast.value[i].performer.Some?
        ensures TryParseInt32(Some(ids[i])) == Some(cast.value[i].performer.value.id as int)
      {
        ParseIntToString(cast.value[i].performer.value.id);
      }
    }
  }

  // ---------------------------------------------------------------------------
  // Subtitle file names

  /** The language part: the first two characters lower-cased, or "en". */
  function SubtitleLanguage(language: Option<string>): (lang: string)
    ensures |lang| == 2
  {
    if language.Some? && |language.value| >= 2 then ToLower(language.value[..2]) else "en"
  }

  /** "<media base>.<language>.<file type>", or `None` for an entry that is skipped. */
  function SubtitleFileName(mediaBase: string, sub: EncoraSubtitles): Option<string> {
    if IsNullOrWhiteSpace(sub.url) || IsNullOrWhiteSpace(sub.fileType) then None
    else Some(mediaBase + "." + SubtitleLanguage(sub.language) + "." + ToLower(sub.fileType.value))
  }

  /** An entry is skipped exactly when its URL or file type is blank; otherwise its
      name splits back into base, two-letter language and lower-case type. */
  lemma SubtitleNameParts(mediaBase: string, sub: EncoraSubtitles)
    ensures SubtitleFileName(mediaBase, sub).None? <==> IsNullOrWhiteSpace(sub.url) || IsNullOrWhiteSpace(sub.fileType)
    ensures SubtitleFileName(mediaBase, sub).Some? ==>
      var name := SubtitleFileName(mediaBase, sub).value;
      var n := |mediaBase|;
      |name| == n + 4 + |sub.fileType.value|
      && name[..n] == mediaBase && name[n] == '.' && name[n + 3] == '.'
      && name[n + 1..n + 3] == SubtitleLanguage(sub.language)
      && name[n + 4..] == ToLower(sub.fileType.value)
      && ToLower(name[n + 4..]) == name[n + 4..]
  {
    if SubtitleFileName(mediaBase, sub).Some? {
      LowerTwice(sub.fileType.value);
    }
  }

  /** `ToLowerInvariant` is idempotent. */
  lemma LowerTwice(s: string)
    ensures ToLower(ToLower(s)) == ToLower(s)
  {
    forall i | 0 <= i < |s| ensures LowerChar(LowerChar(s[i])) == LowerChar(s[i]) {
    }
  }

  /** A language of fewer than two characters, or none, falls back to "en". */
  lemma ShortLanguageIsEnglish(language: Option<string>)
    requires language.None? || |language.value| < 2
    ensures SubtitleLanguage(language) == "en"
  {
  }
}
