/**
 * The NFO sidecar reader (`NfoMetadataProvider.GetMetadata`, repeated almost
 * line for line by `EncoraMovieMetadataProvider.ParseNfoMetadata`): find
 * `movie.nfo` or `<name>.nfo` next to the media file, check that its root is a
 * `<movie>` element, and copy titles, dates, year, studio, genres,
 * certification, poster and actors onto a new movie and its result.
 */
module Nfo {
  import opened Wrappers
  import opened Text
  import opened Paths
  import opened Models
  import opened Entities
  import opened Xml
  import opened Host

  /** The sidecar read for the media file at `path` in `dir`: `movie.nfo` when it
      exists, else `<file name without extension>.nfo`, else none. */
  function SidecarPath(fs: FileSystem, dir: string, path: string): (p: Option<string>)
    ensures p.Some? ==> Exists(fs, p.value)
  {
    var main := Combine(dir, "movie.nfo");
    if Exists(fs, main) then Some(main)
    else
      var named := Combine(dir, FileNameWithoutExtension(path) + ".nfo");
      if Exists(fs, named) then Some(named) else None
  }

  /** The root's local name is "movie", in any case; its namespace is not looked at. */
  predicate IsMovieRoot(root: XElement) {
    EqualsIgnoreCase(root.name.localName, "movie")
  }

  /** The `<movie>` root of the sidecar, when there is a sidecar and its root is one. */
  function SidecarRoot(fs: FileSystem, dir: string, path: string): (r: Option<XElement>)
    ensures r.Some? ==> IsMovieRoot(r.value)
  {
    match SidecarPath(fs, dir, path)
    case None => None
    case Some(p) =>
      match fs.parse(ReadText(fs, p))
      case None => None
      case Some(root) => if IsMovieRoot(root) then Some(root) else None
  }

  /** `Elements(local)` of the root. */
  function Children(root: XElement, local: string): seq<XElement> {
    ElementsNamed(root, Plain(local))
  }

  /** The values of the elements that are not blank, in document order (the genre loop). */
  function NonBlankValues(elems: seq<XElement>): (r: seq<string>)
    ensures |r| <= |elems|
    ensures forall i :: 0 <= i < |r| ==> !IsBlank(r[i])
  {
    if elems == [] then []
    else
      var v := Value(elems[|elems| - 1]);
      NonBlankValues(elems[..|elems| - 1]) + (if IsBlank(v) then [] else [v])
  }

  /** Some element has a value that is not blank (the certification loop). */
  predicate AnyNonBlank(elems: seq<XElement>) {
    exists i :: 0 <= i < |elems| && !IsBlank(Value(elems[i]))
  }

  /** `(string?)e.Attribute("aspect") == "poster"`. */
  predicate IsPoster(e: XElement) {
    AttributeValue(e.attributes, Plain("aspect")) == Some("poster")
  }

  /** The first poster thumb, as `FirstOrDefault` finds it. */
  function PosterThumb(thumbs: seq<XElement>): (t: Option<XElement>)
    ensures t.Some? ==> t.value in thumbs && IsPoster(t.value)
    ensures t.None? <==> forall i :: 0 <= i < |thumbs| ==> !IsPoster(thumbs[i])
  {
    if thumbs == [] then None
    else if IsPoster(thumbs[0]) then Some(thumbs[0])
    else
      var t := PosterThumb(thumbs[1..]);
      assert forall i :: 1 <= i < |thumbs| ==> thumbs[i] == thumbs[1..][i - 1];
      t
  }

  /** The primary images: the first poster thumb's text, unless it is blank. */
  function PosterImages(root: XElement): (images: seq<string>)
    ensures |images| <= 1
  {
    match PosterThumb(Children(root, "thumb"))
    case None => []
    case Some(t) => if IsBlank(Value(t)) then [] else [Value(t)]
  }

  /** The person an `<actor>` element with a name gives: name, role and thumb. */
  function ActorOf(e: XElement): PersonInfo
    requires !IsNullOrWhiteSpace(ChildValue(e, "name"))
  {
    PersonInfo(ChildValue(e, "name").value, ChildValue(e, "role"), ChildValue(e, "thumb"), Actor)
  }

  /** The person an `<actor>` element gives: one with a name that is not blank. */
  function NfoActor(e: XElement): (p: Option<PersonInfo>)
    ensures p.Some? ==> p.value.kind == Actor && !IsBlank(p.value.name)
  {
    if IsNullOrWhiteSpace(ChildValue(e, "name")) then None else Some(ActorOf(e))
  }

  /** The people the actor loop adds, in document order. */
  function NfoPeople(actors: seq<XElement>): (r: seq<PersonInfo>)
    ensures |r| <= |actors|
    ensures forall i :: 0 <= i < |r| ==> r[i].kind == Actor && !IsBlank(r[i].name)
  {
    if actors == [] then []
    else
      var p := NfoActor(actors[|actors| - 1]);
      NfoPeople(actors[..|actors| - 1]) + (if p.None? then [] else [p.value])
  }

  /** `premiered` when it parses as a date, else `releasedate` when that does. */
  function PremiereOf(root: XElement, culture: Culture): Option<DateTime> {
    var premiered := ParseDate(culture, ChildValue(root, "premiered"));
    if premiered.Some? then premiered else ParseDate(culture, ChildValue(root, "releasedate"))
  }

  /** The studio when it is not blank. */
  function NfoStudios(root: XElement): (r: seq<string>)
    ensures |r| <= 1 && forall i :: 0 <= i < |r| ==> !IsBlank(r[i])
  {
    var studio := ChildValue(root, "studio");
    if IsNullOrWhiteSpace(studio) then [] else [studio.value]
  }

  /** The properties the object initializer and the statements right after it set. */
  function NfoScalars(root: XElement, culture: Culture): MovieData {
    NewMovie.(
      name := ChildValue(root, "title"),
      overview := ChildValue(root, "plot"),
      originalTitle := ChildValue(root, "originaltitle"),
      sortName := ChildValue(root, "sorttitle"),
      premiereDate := PremiereOf(root, culture),
      productionYear := TryParseInt32(ChildValue(root, "year")),
      studios := NfoStudios(root))
  }

  /** The movie built from a `<movie>` element. */
  function NfoMovie(root: XElement, culture: Culture): MovieData {
    NfoScalars(root, culture).(
      genres := NonBlankValues(Children(root, "genre")),
      officialRating := if AnyNonBlank(Children(root, "certification")) then Some("NFT") else None,
      images := PosterImages(root))
  }

  /** The result for a `<movie>` element: metadata found, the movie and its actors. */
  function NfoResult(root: XElement, culture: Culture): ResultData {
    ResultData(true, Some(NfoMovie(root, culture)), NfoPeople(Children(root, "actor")))
  }

  /** What `NfoMetadataProvider.GetMetadata` returns. */
  function ProviderResult(info: MovieInfo, fs: FileSystem, culture: Culture): ResultData {
    if IsNullOrWhiteSpace(info.path) then EmptyResult
    else
      var dir := DirectoryName(info.path.value);
      if IsNullOrWhiteSpace(dir) then EmptyResult
      else
        match SidecarRoot(fs, dir.value, info.path.value)
        case None => EmptyResult
        case Some(root) => NfoResult(root, culture)
  }

  /** The genre loop: each genre that is not blank is added, in document order. */
  method AddGenres(movie: Movie, genres: seq<XElement>)
    modifies movie
    ensures movie.Snapshot() == old(movie.Snapshot()).(genres := old(movie.genres) + NonBlankValues(genres))
  {
    for k := 0 to |genres|
      invariant movie.Snapshot() == old(movie.Snapshot()).(genres := old(movie.genres) + NonBlankValues(genres[..k]))
    {
      var genre := Value(genres[k]);
      if !IsBlank(genre) {
        movie.AddGenre(genre);
      }
      assert genres[..k + 1][..k] == genres[..k];
    }
    assert genres[..|genres|] == genres;
  }

  /** The certification loop: any certification that is not blank sets the rating to "NFT". */
  method RateCertifications(movie: Movie, certs: seq<XElement>)
    modifies movie
    ensures movie.Snapshot()
            == old(movie.Snapshot()).(officialRating := if AnyNonBlank(certs) then Some("NFT") else old(movie.officialRating))
  {
    for k := 0 to |certs|
      invariant movie.Snapshot()
                == old(movie.Snapshot()).(officialRating := if AnyNonBlank(certs[..k]) then Some("NFT") else old(movie.officialRating))
    {
      if !IsBlank(Value(certs[k])) {
        movie.officialRating := Some("NFT");
      }
      assert AnyNonBlank(certs[..k + 1]) <==> AnyNonBlank(certs[..k]) || !IsBlank(Value(certs[k])) by {
        assert forall i :: 0 <= i < k ==> certs[..k + 1][i] == certs[..k][i];
        assert certs[..k + 1][k] == certs[k];
      }
    }
    assert certs[..|certs|] == certs;
  }

  /** The actor loop: each actor with a name is added to the result, in document order. */
  method AddActors(result: MetadataResult, actors: seq<XElement>)
    modifies result
    ensures result.people == old(result.people) + NfoPeople(actors)
    ensures result.hasMetadata == old(result.hasMetadata) && result.item == old(result.item)
  {
    for k := 0 to |actors|
      invariant result.people == old(result.people) + NfoPeople(actors[..k])
      invariant result.hasMetadata == old(result.hasMetadata) && result.item == old(result.item)
    {
      var name := ChildValue(actors[k], "name");
      if !IsNullOrWhiteSpace(name) {
        result.AddPerson(PersonInfo(name.value, ChildValue(actors[k], "role"), ChildValue(actors[k], "thumb"), Actor));
      }
      assert actors[..k + 1][..k] == actors[..k];
    }
    assert actors[..|actors|] == actors;
  }

  /** The movie's scalar fields, as the object initializer and the statements after it
      set them on a new movie. */
  method NewNfoMovie(root: XElement, culture: Culture) returns (movie: Movie)
    ensures fresh(movie)
    ensures movie.Snapshot() == NfoScalars(root, culture)
  {
    movie := new Movie(NewMovie.(name := ChildValue(root, "title"), overview := ChildValue(root, "plot"),
                                 originalTitle := ChildValue(root, "originaltitle"),
                                 sortName := ChildValue(root, "sorttitle")));

    var premiere := ParseDate(culture, ChildValue(root, "premiered"));
    if premiere.Some? {
      movie.premiereDate := premiere;
    } else {
      var release := ParseDate(culture, ChildValue(root, "releasedate"));
      if release.Some? {
        movie.premiereDate := release;
      }
    }

    var year := TryParseInt32(ChildValue(root, "year"));
    if year.Some? {
      movie.productionYear := year;
    }

    var studio := ChildValue(root, "studio");
    if !IsNullOrWhiteSpace(studio) {
      movie.AddStudio(studio.value);
    }
  }

  /** The movie both readers build from the `<movie>` element: the scalar fields, then
      the genre loop, the certification loop and the poster. */
  method BuildNfoMovie(root: XElement, culture: Culture) returns (movie: Movie)
    ensures fresh(movie)
    ensures movie.Snapshot() == NfoMovie(root, culture)
  {
    movie := NewNfoMovie(root, culture);
    AddGenres(movie, Children(root, "genre"));
    RateCertifications(movie, Children(root, "certification"));
    var poster := PosterThumb(Children(root, "thumb"));
    var posterUrl := if poster.None? then None else Some(Value(poster.value));
    if !IsNullOrWhiteSpace(posterUrl) {
      movie.AddImage(posterUrl.value);
    }
  }

  /** The sidecar lookup both readers share: `movie.nfo`, else `<name>.nfo`, then the
      parsed root when it is a `<movie>` element. */
  method ReadSidecar(fs: FileSystem, dir: string, path: string) returns (root: Option<XElement>)
    ensures root == SidecarRoot(fs, dir, path)
  {
    var nfoPath := Combine(dir, "movie.nfo");
    if !Exists(fs, nfoPath) {
      nfoPath := Combine(dir, FileNameWithoutExtension(path) + ".nfo");
      if !Exists(fs, nfoPath) {
        return None;
      }
    }
    root := fs.parse(ReadText(fs, nfoPath));
    if root.None? || !EqualsIgnoreCase(root.value.name.localName, "movie") {
      return None;
    }
  }

  /** `NfoMetadataProvider.GetMetadata`. */
  method GetMetadata(info: MovieInfo, fs: FileSystem, culture: Culture) returns (result: MetadataResult)
    ensures fresh(result)
    ensures result.Snapshot() == ProviderResult(info, fs, culture)
  {
    result := new MetadataResult();
    if IsNullOrWhiteSpace(info.path) {
      return;
    }
    var dir := DirectoryName(info.path.value);
    if IsNullOrWhiteSpace(dir) {
      return;
    }
    var root := ReadSidecar(fs, dir.value, info.path.value);
    if root.None? {
      return;
    }
    var movie := BuildNfoMovie(root.value, culture);
    AddActors(result, Children(root.value, "actor"));
    result.hasMetadata := true;
    result.item := movie;
  }

  // ---------------------------------------------------------------------------
  // Properties

  /** `movie.nfo` is preferred; the file named after the media file is the second choice. */
  lemma SidecarPreference(fs: FileSystem, dir: string, path: string)
    ensures Exists(fs, Combine(dir, "movie.nfo")) ==> SidecarPath(fs, dir, path) == Some(Combine(dir, "movie.nfo"))
    ensures !Exists(fs, Combine(dir, "movie.nfo")) ==>
              SidecarPath(fs, dir, path)
              == if Exists(fs, Combine(dir, FileNameWithoutExtension(path) + ".nfo"))
                 then Some(Combine(dir, FileNameWithoutExtension(path) + ".nfo")) else None
  {
  }

  /** A parsed sidecar is used exactly when its root is called "movie" in some case. */
  lemma RootAcceptedIffMovie(fs: FileSystem, dir: string, path: string, root: XElement)
    requires SidecarPath(fs, dir, path).Some?
    requires fs.parse(ReadText(fs, SidecarPath(fs, dir, path).value)) == Some(root)
    ensures SidecarRoot(fs, dir, path) == Some(root) <==> IsMovieRoot(root)
    ensures SidecarRoot(fs, dir, path).None? <==> !IsMovieRoot(root)
  {
  }

  /** An upper-case `<MOVIE>` root is accepted. */
  lemma UpperCaseRootAccepted(root: XElement)
    requires root.name.localName == "MOVIE"
    ensures IsMovieRoot(root)
  {
    assert ToLower("MOVIE") == "movie";
  }

  /** The provider reports metadata exactly when a `<movie>` sidecar was found; otherwise
      its result is the empty one. */
  lemma MetadataIffSidecar(info: MovieInfo, fs: FileSystem, culture: Culture)
    ensures ProviderResult(info, fs, culture).hasMetadata
            <==> !IsNullOrWhiteSpace(info.path) && !IsNullOrWhiteSpace(DirectoryName(info.path.value))
                 && SidecarRoot(fs, DirectoryName(info.path.value).value, info.path.value).Some?
    ensures !ProviderResult(info, fs, culture).hasMetadata ==> ProviderResult(info, fs, culture) == EmptyResult
  {
  }

  /** The premiere date is `premiered` when that parses, else `releasedate`; it is
      absent only when neither parses. */
  lemma PremiereFallback(root: XElement, culture: Culture)
    ensures ParseDate(culture, ChildValue(root, "premiered")).Some? ==>
              NfoMovie(root, culture).premiereDate == ParseDate(culture, ChildValue(root, "premiered"))
    ensures NfoMovie(root, culture).premiereDate.None?
            <==> ParseDate(culture, ChildValue(root, "premiered")).None?
                 && ParseDate(culture, ChildValue(root, "releasedate")).None?
  {
  }

  /** A `<year>` holding an Int32 in decimal sets that year. */
  lemma YearParsed(root: XElement, culture: Culture, year: int)
    requires IsInt32(year) && ChildValue(root, "year") == Some(IntToString(year))
    ensures NfoMovie(root, culture).productionYear == Some(year)
  {
    ParseIntToString(year);
  }

  /** Without a parsable `<year>` the year stays unset (it is never defaulted to 0). */
  lemma YearUnset(root: XElement, culture: Culture)
    requires TryParseInt32(ChildValue(root, "year")).None?
    ensures NfoMovie(root, culture).productionYear.None?
  {
  }

  /** When no genre is blank, every genre is kept, in document order. */
  lemma {:induction false} AllGenresKept(elems: seq<XElement>)
    requires forall i :: 0 <= i < |elems| ==> !IsBlank(Value(elems[i]))
    ensures |NonBlankValues(elems)| == |elems|
    ensures forall i :: 0 <= i < |elems| ==> NonBlankValues(elems)[i] == Value(elems[i])
  {
    if elems != [] {
      AllGenresKept(elems[..|elems| - 1]);
    }
  }

  /** A blank genre adds nothing. */
  lemma BlankGenreDropped(elems: seq<XElement>, e: XElement)
    requires IsBlank(Value(e))
    ensures NonBlankValues(elems + [e]) == NonBlankValues(elems)
  {
    assert (elems + [e])[..|elems|] == elems;
  }

  /** One certification that is not blank makes the rating "NFT", whatever the others hold. */
  lemma CertificationGivesNft(root: XElement, culture: Culture, k: nat)
    requires k < |Children(root, "certification")| && !IsBlank(Value(Children(root, "certification")[k]))
    ensures NfoMovie(root, culture).officialRating == Some("NFT")
  {
  }

  /** With no certification that is not blank, the rating stays unset. */
  lemma NoCertificationNoRating(root: XElement, culture: Culture)
    requires forall i :: 0 <= i < |Children(root, "certification")| ==> IsBlank(Value(Children(root, "certification")[i]))
    ensures NfoMovie(root, culture).officialRating.None?
  {
  }

  /** The first thumb marked as a poster decides. */
  lemma {:induction false} PosterThumbAt(thumbs: seq<XElement>, k: nat)
    requires k < |thumbs| && IsPoster(thumbs[k])
    requires forall j :: 0 <= j < k ==> !IsPoster(thumbs[j])
    ensures PosterThumb(thumbs) == Some(thumbs[k])
  {
    if k > 0 {
      assert thumbs[1..][k - 1] == thumbs[k];
      PosterThumbAt(thumbs[1..], k - 1);
    }
  }

  /** The first poster thumb's text is the image; when it is blank there is no image,
      even if a later poster thumb holds a url. */
  lemma FirstPosterDecides(root: XElement, k: nat)
    requires k < |Children(root, "thumb")| && IsPoster(Children(root, "thumb")[k])
    requires forall j :: 0 <= j < k ==> !IsPoster(Children(root, "thumb")[j])
    ensures PosterImages(root)
            == if IsBlank(Value(Children(root, "thumb")[k])) then [] else [Value(Children(root, "thumb")[k])]
  {
    PosterThumbAt(Children(root, "thumb"), k);
  }

  /** When every actor has a name, each becomes a person, in document order, with its
      role and thumb. */
  lemma {:induction false} AllActorsKept(actors: seq<XElement>)
    requires forall i :: 0 <= i < |actors| ==> !IsNullOrWhiteSpace(ChildValue(actors[i], "name"))
    ensures |NfoPeople(actors)| == |actors|
    ensures forall i :: 0 <= i < |actors| ==>
NfoPeople(actors)[i] == ActorOf(actors[i])
  {
    if actors != [] {
      AllActorsKept(actors[..|actors| - 1]);
    }
  }

  /** An actor without a usable name adds nobody. */
  lemma UnnamedActorDropped(actors: seq<XElement>, e: XElement)
    requires IsNullOrWhiteSpace(ChildValue(e, "name"))
    ensures NfoPeople(actors + [e]) == NfoPeople(actors)
  {
    assert (actors + [e])[..|actors|] == actors;
  }
}
