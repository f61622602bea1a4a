/**
 * The subtitle download loop of `EncoraMovieMetadataProvider.GetMetadata`: each
 * listed subtitle with a URL and a file type is downloaded next to the media
 * file as `<media name>.<language>.<type>`; the first failed download throws out
 * of the loop, so the movie keeps `HasSubtitles` from the files already written
 * but never receives the list of subtitle files.
 */
module Subtitles {
  import opened Wrappers
  import opened Text
  import opened Paths
  import opened Models
  import opened Entities
  import opened Derivations

  /** Where the loop stands: the files written so far, and whether a download failed. */
  datatype Downloads = Downloads(written: seq<string>, failed: bool)

  /** The loop over `subs`, entry by entry: a skipped entry changes nothing, a download
      that succeeds writes `<dir>/<name>`, and after a failure nothing more happens.
      `downloaded(url)` says whether fetching and writing the file at `url` succeeds. */
  function DownloadAll(dir: string, mediaBase: string, subs: seq<EncoraSubtitles>, downloaded: string -> bool)
    : (d: Downloads)
    ensures |d.written| <= |subs|
  {
    if subs == [] then Downloads([], false)
    else
      var before := DownloadAll(dir, mediaBase, subs[..|subs| - 1], downloaded);
      var sub := subs[|subs| - 1];
      if before.failed then before
      else
        match SubtitleFileName(mediaBase, sub)
        case None => before
        case Some(name) =>
          if downloaded(sub.url.value) then Downloads(before.written + [Combine(dir, name)], false)
          else Downloads(before.written, true)
  }

  /** The loop, writing into `movie`: `HasSubtitles` is set by the first file written,
      and `SubtitleFiles` is assigned only when the loop runs to its end. */
  method WriteSubtitles(movie: Movie, dir: string, mediaBase: string, subs: seq<EncoraSubtitles>,
                        downloaded: string -> bool)
    returns (written: seq<string>)
    modifies movie
    ensures written == DownloadAll(dir, mediaBase, subs, downloaded).written
    ensures movie.Snapshot()
            == old(movie.Snapshot()).(
                 hasSubtitles := old(movie.hasSubtitles) || written != [],
                 subtitleFiles := if DownloadAll(dir, mediaBase, subs, downloaded).failed
                                  then old(movie.subtitleFiles) else written)
  {
    written := [];
    for k := 0 to |subs|
      invariant !DownloadAll(dir, mediaBase, subs[..k], downloaded).failed
      invariant written == DownloadAll(dir, mediaBase, subs[..k], downloaded).written
      invariant movie.Snapshot() == old(movie.Snapshot()).(hasSubtitles := old(movie.hasSubtitles) || written != [])
    {
      var sub := subs[k];
      NextEntry(dir, mediaBase, subs, downloaded, k);
      if IsNullOrWhiteSpace(sub.url) || IsNullOrWhiteSpace(sub.fileType) {
        continue;
      }
      var lang := if sub.language.Some? && |sub.language.value| >= 2 then ToLower(sub.language.value[..2]) else "en";
      var ext := ToLower(sub.fileType.value);
      var subFilePath := Combine(dir, mediaBase + "." + lang + "." + ext);
      assert subFilePath == Combine(dir, SubtitleFileName(mediaBase, sub).value);
      if !downloaded(sub.url.value) {
        FailureStops(dir, mediaBase, subs, downloaded, k + 1);
        return;
      }
      written := written + [subFilePath];
      movie.hasSubtitles := true;
    }
    assert subs[..|subs|] == subs;
    movie.subtitleFiles := written;
  }

  // ---------------------------------------------------------------------------
  // Properties

  /** One more entry of the loop, before any failure. */
  lemma NextEntry(dir: string, mediaBase: string, subs: seq<EncoraSubtitles>, downloaded: string -> bool, k: nat)
    requires k < |subs| && !DownloadAll(dir, mediaBase, subs[..k], downloaded).failed
    ensures var before := DownloadAll(dir, mediaBase, subs[..k], downloaded);
            DownloadAll(dir, mediaBase, subs[..k + 1], downloaded)
            == match SubtitleFileName(mediaBase, subs[k])
               case None => before
               case Some(name) =>
                 if downloaded(subs[k].url.value) then Downloads(before.written + [Combine(dir, name)], false)
                 else Downloads(before.written, true)
  {
    assert subs[..k + 1][..k] == subs[..k];
  }

  /** Once a download has failed, the later entries change nothing. */
  lemma {:induction false} FailureStops(dir: string, mediaBase: string, subs: seq<EncoraSubtitles>,
                                        downloaded: string -> bool, k: nat)
    requires k <= |subs| && DownloadAll(dir, mediaBase, subs[..k], downloaded).failed
    ensures DownloadAll(dir, mediaBase, subs, downloaded) == DownloadAll(dir, mediaBase, subs[..k], downloaded)
  {
    if k < |subs| {
      assert subs[..|subs| - 1][..k] == subs[..k];
      FailureStops(dir, mediaBase, subs[..|subs| - 1], downloaded, k);
    } else {
      assert subs[..k] == subs;
    }
  }

  /** An entry without a URL or a file type is skipped. */
  lemma SkippedEntry(dir: string, mediaBase: string, subs: seq<EncoraSubtitles>, sub: EncoraSubtitles,
                     downloaded: string -> bool)
    requires IsNullOrWhiteSpace(sub.url) || IsNullOrWhiteSpace(sub.fileType)
    ensures DownloadAll(dir, mediaBase, subs + [sub], downloaded) == DownloadAll(dir, mediaBase, subs, downloaded)
  {
    assert (subs + [sub])[..|subs|] == subs;
  }

  /** When every entry has a URL and a file type and every download succeeds, one file
      per entry is written, in list order, named after the media file, the language
      and the file type. */
  lemma {:induction false} AllWritten(dir: string, mediaBase: string, subs: seq<EncoraSubtitles>,
                                      downloaded: string -> bool)
    requires forall i :: 0 <= i < |subs| ==>
               SubtitleFileName(mediaBase, subs[i]).Some? && downloaded(subs[i].url.value)
    ensures !DownloadAll(dir, mediaBase, subs, downloaded).failed
    ensures |DownloadAll(dir, mediaBase, subs, downloaded).written| == |subs|
    ensures forall i :: 0 <= i < |subs| ==>
              DownloadAll(dir, mediaBase, subs, downloaded).written[i]
              == Combine(dir, SubtitleFileName(mediaBase, subs[i]).value)
  {
    if subs != [] {
      var n := |subs| - 1;
      AllWritten(dir, mediaBase, subs[..n], downloaded);
      var before := DownloadAll(dir, mediaBase, subs[..n], downloaded);
      var file := Combine(dir, SubtitleFileName(mediaBase, subs[n]).value);
      assert DownloadAll(dir, mediaBase, subs, downloaded) == Downloads(before.written + [file], false);
      forall i | 0 <= i < |subs|
        ensures (before.written + [file])[i] == Combine(dir, SubtitleFileName(mediaBase, subs[i]).value)
      {
        if i < n {
          assert subs[..n][i] == subs[i];
        }
      }
    }
  }

  /** A failed download of the first usable entry writes nothing at all. */
  lemma FirstDownloadFails(dir: string, mediaBase: string, sub: EncoraSubtitles, rest: seq<EncoraSubtitles>,
                           downloaded: string -> bool)
    requires SubtitleFileName(mediaBase, sub).Some? && !downloaded(sub.url.value)
    ensures DownloadAll(dir, mediaBase, [sub] + rest, downloaded) == Downloads([], true)
  {
    assert ([sub] + rest)[..1] == [sub];
    assert [sub][..0] == [];
    FailureStops(dir, mediaBase, [sub] + rest, downloaded, 1);
  }

  /** A failed download after a written file keeps that file but marks the loop failed. */
  lemma FailureAfterWrite(dir: string, mediaBase: string, sub: EncoraSubtitles, failing: EncoraSubtitles,
                          downloaded: string -> bool)
    requires SubtitleFileName(mediaBase, sub).Some? && downloaded(sub.url.value)
    requires SubtitleFileName(mediaBase, failing).Some? && !downloaded(failing.url.value)
    ensures DownloadAll(dir, mediaBase, [sub, failing], downloaded)
            == Downloads([Combine(dir, SubtitleFileName(mediaBase, sub).value)], true)
  {
    assert [sub][..0] == [];
    assert DownloadAll(dir, mediaBase, [sub], downloaded)
           == Downloads([Combine(dir, SubtitleFileName(mediaBase, sub).value)], false);
    assert [sub, failing][..1] == [sub];
  }
}
