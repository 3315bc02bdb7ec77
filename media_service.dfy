/** Photos and voice notes: upload with storage naming, listing with signed URLs,
    deletion, and the analysis pipeline that turns a media item into metrics.
    Storage, URL signing, the inference endpoint and the database report their
    outcomes through parameters. */
module MediaService {
  import opened Wrappers
  import opened Text
  import Sequences
  import AiAnalysis

  datatype MediaKind = Photo | Voice | OtherKind(name: string)

  /** What is uploaded: a `File` with its name and MIME type, or a bare `Blob`. */
  datatype Upload = FileUpload(name: string, mimeType: string, size: nat) | BlobUpload(size: nat)

  datatype AnalysisStatus = Pending | Analyzing | Completed | Failure | NotApplicable

  datatype Media = Media(
    id: string, profileId: string, kind: MediaKind, filePath: string,
    thumbnailPath: Option<string>, size: nat, mimeType: string, duration: Option<real>,
    timestamp: int, notes: Option<string>, status: AnalysisStatus,
    analysisError: Option<string>, deletedAt: Option<int>)

  datatype MediaWithUrls = MediaWithUrls(media: Media, url: string, thumbnailUrl: Option<string>)

  // ---------------------------------------------------------------- naming

  function UploadSize(upload: Upload): nat {
    match upload
    case FileUpload(_, _, size) => size
    case BlobUpload(size) => size
  }

  /** The extension: the text after the last "." of a file name (all of it when there
      is none), "jpg" for a blob. */
  function FileExt(upload: Upload): (ext: string)
    ensures upload.FileUpload? ==>
      '.' !in ext && |ext| <= |upload.name| && ext == upload.name[|upload.name| - |ext|..]
    ensures upload.FileUpload? && '.' in upload.name ==>
      |ext| < |upload.name| && upload.name[|upload.name| - |ext| - 1] == '.'
    ensures upload.FileUpload? && '.' !in upload.name ==> ext == upload.name
    ensures upload.BlobUpload? ==> ext == "jpg"
  {
    match upload
    case FileUpload(name, _, _) => AfterLast(name, '.')
    case BlobUpload(_) => "jpg"
  }

  function FileName(uuid: string, ext: string): string {
    uuid + "." + ext
  }

  /** `<userId>/<profileId>/<fileName>`. */
  function StoragePath(userId: string, profileId: string, fileName: string): string {
    userId + "/" + profileId + "/" + fileName
  }

  /** The first "." becomes "_thumb.". */
  function ThumbnailName(fileName: string): string {
    ReplaceFirst(fileName, ".", "_thumb.")
  }

  lemma {:induction false} FindDotAfterUuid(uuid: string, ext: string)
    requires '.' !in uuid
    ensures FindFirst(FileName(uuid, ext), ".") == Some(|uuid|)
  {
    var s := FileName(uuid, ext);
    assert OccursAt(s, ".", |uuid|) by {
      assert s[|uuid|..|uuid| + 1] == ".";
    }
    forall k | 0 <= k < |uuid|
      ensures !OccursAt(s, ".", k)
    {
      assert s[k] == uuid[k];
    }
  }

  /** With a uuid free of dots, the thumbnail of `<uuid>.<ext>` is `<uuid>_thumb.<ext>`. */
  lemma ThumbnailNameOfUuid(uuid: string, ext: string)
    requires '.' !in uuid
    ensures ThumbnailName(FileName(uuid, ext)) == uuid + "_thumb." + ext
  {
    FindDotAfterUuid(uuid, ext);
    var s := FileName(uuid, ext);
    assert s[..|uuid|] == uuid;
    assert s[|uuid| + 1..] == ext;
  }

  /** The bucket of a kind; the same rule serves upload, listing, delete and retry. */
  function Bucket(kind: MediaKind): (b: string)
    ensures b == "photos" <==> kind == Photo
  {
    if kind == Photo then "photos" else "audio"
  }

  function UploadMimeType(upload: Upload): string {
    match upload
    case FileUpload(_, mimeType, _) => mimeType
    case BlobUpload(_) => "image/jpeg"
  }

  function InitialStatus(kind: MediaKind): (s: AnalysisStatus)
    ensures s == Pending <==> kind == Photo || kind == Voice
    ensures s == Pending || s == NotApplicable
  {
    if kind == Photo || kind == Voice then Pending else NotApplicable
  }

  /** The analysis an upload sets off: photos through the image endpoint, voice notes
      through the audio endpoint, nothing for other kinds. */
  function AnalysisFor(kind: MediaKind): (source: Option<AiAnalysis.SourceType>)
    ensures source.Some? <==> InitialStatus(kind) == Pending
  {
    match kind
    case Photo => Some(AiAnalysis.Photo)
    case Voice => Some(AiAnalysis.Audio)
    case OtherKind(_) => None
  }

  // ---------------------------------------------------------------- row updates

  function SetStatus(rows: seq<Media>, id: string, status: AnalysisStatus): (r: seq<Media>)
    ensures |r| == |rows|
    ensures forall i :: 0 <= i < |rows| ==>
      r[i] == if rows[i].id == id then rows[i].(status := status) else rows[i]
  {
    seq(|rows|, i requires 0 <= i < |rows| => if rows[i].id == id then rows[i].(status := status) else rows[i])
  }

  function SetOutcome(rows: seq<Media>, id: string, status: AnalysisStatus, error: Option<string>): (r: seq<Media>)
    ensures |r| == |rows|
    ensures forall i :: 0 <= i < |rows| ==>
      r[i] == if rows[i].id == id then rows[i].(status := status, analysisError := error) else rows[i]
  {
    seq(|rows|, i requires 0 <= i < |rows| =>
      if rows[i].id == id then rows[i].(status := status, analysisError := error) else rows[i])
  }

  function SoftDeleteWhere(rows: seq<Media>, id: string, now: int): (r: seq<Media>)
    ensures |r| == |rows|
    ensures forall i :: 0 <= i < |rows| ==>
      r[i] == if rows[i].id == id then rows[i].(deletedAt := Some(now)) else rows[i]
  {
    seq(|rows|, i requires 0 <= i < |rows| => if rows[i].id == id then rows[i].(deletedAt := Some(now)) else rows[i])
  }

  function WithId(rows: seq<Media>, id: string): seq<Media> {
    Sequences.Filter(rows, (m: Media) => m.id == id)
  }

  /** The files of a media item: the file, then the thumbnail when it has one. */
  function FilesOf(m: Media): (files: seq<string>)
    ensures |files| >= 1 && files[0] == m.filePath
    ensures |files| == 2 <==> m.thumbnailPath.Some? && m.thumbnailPath.value != ""
    ensures |files| == 2 ==> files[1] == m.thumbnailPath.value
  {
    [m.filePath] + if m.thumbnailPath.Some? && m.thumbnailPath.value != "" then [m.thumbnailPath.value] else []
  }

  // ---------------------------------------------------------------- listing

  /** The optional type filter of a listing; an empty type name counts as unset. */
  predicate PassesKind(m: Media, kind: Option<MediaKind>) {
    kind.Some? && kind.value != OtherKind("") ==> m.kind == kind.value
  }

  function Timestamp(m: Media): int {
    m.timestamp
  }

  /** The item with its signed URLs; a missing URL becomes "", and a thumbnail URL is
      requested only when there is a thumbnail path. */
  function WithUrls(m: Media, sign: (string, string) -> Option<string>): (r: MediaWithUrls)
    ensures r.media == m
    ensures r.url == sign(Bucket(m.kind), m.filePath).GetOr("")
    ensures r.thumbnailUrl == if m.thumbnailPath.Some? && m.thumbnailPath.value != ""
                              then sign(Bucket(m.kind), m.thumbnailPath.value) else None
  {
    var bucket := Bucket(m.kind);
    var thumbnailUrl :=
      if m.thumbnailPath.Some? && m.thumbnailPath.value != "" then sign(bucket, m.thumbnailPath.value) else None;
    MediaWithUrls(m, sign(bucket, m.filePath).GetOr(""), thumbnailUrl)
  }

  function AllWithUrls(ms: seq<Media>, sign: (string, string) -> Option<string>): (r: seq<MediaWithUrls>)
    ensures |r| == |ms|
    ensures forall k :: 0 <= k < |ms| ==> r[k] == WithUrls(ms[k], sign)
  {
    if ms == [] then [] else [WithUrls(ms[0], sign)] + AllWithUrls(ms[1..], sign)
  }

  /** The listed items before their URLs are added: live items of the profile (and of
      the kind asked for), newest first. */
  function Listed(rows: seq<Media>, profileId: string, kind: Option<MediaKind>): (r: seq<Media>)
    ensures forall m :: m in r ==> m in rows && m.profileId == profileId && m.deletedAt.None? && PassesKind(m, kind)
    ensures Sequences.SortedDesc(r, Timestamp)
    ensures multiset(r) == multiset(Sequences.Filter(rows, (m: Media) => m.profileId == profileId && m.deletedAt.None? && PassesKind(m, kind)))
  {
    var keep := (m: Media) => m.profileId == profileId && m.deletedAt.None? && PassesKind(m, kind);
    Sequences.SortedFilterElements(rows, keep, Timestamp);
    Sequences.SortDesc(Sequences.Filter(rows, keep), Timestamp)
  }

  /** `getMedia`: the profile's live items, newest first, optionally of one kind. */
  function GetMedia(rows: seq<Media>, profileId: string, kind: Option<MediaKind>,
                    sign: (string, string) -> Option<string>): seq<MediaWithUrls>
  {
    AllWithUrls(Listed(rows, profileId, kind), sign)
  }

  /** The items of a listing, without their URLs. */
  function Items(r: seq<MediaWithUrls>): (ms: seq<Media>)
    ensures |ms| == |r|
    ensures forall k :: 0 <= k < |r| ==> ms[k] == r[k].media
  {
    seq(|r|, k requires 0 <= k < |r| => r[k].media)
  }

  /** The listing returns live items of the profile (and of the kind asked for),
      newest first, every live item exactly once. */
  lemma GetMediaSpec(rows: seq<Media>, profileId: string, kind: Option<MediaKind>,
                     sign: (string, string) -> Option<string>)
    ensures var r := GetMedia(rows, profileId, kind, sign);
      && (forall k :: 0 <= k < |r| ==>
            && r[k].media in rows && r[k].media.profileId == profileId
            && r[k].media.deletedAt.None? && PassesKind(r[k].media, kind))
      && (forall i, j :: 0 <= i < j < |r| ==> r[i].media.timestamp >= r[j].media.timestamp)
      && multiset(Items(r)) == multiset(Sequences.Filter(rows, (m: Media) => m.profileId == profileId && m.deletedAt.None? && PassesKind(m, kind)))
  {
    var ordered := Listed(rows, profileId, kind);
    var r := GetMedia(rows, profileId, kind, sign);
    assert Items(r) == ordered;
    forall k | 0 <= k < |r|
      ensures r[k].media == ordered[k] && ordered[k] in ordered
    {
    }
    forall i, j | 0 <= i < j < |r|
      ensures r[i].media.timestamp >= r[j].media.timestamp
    {
      assert r[i].media == ordered[i] && r[j].media == ordered[j];
    }
  }

  // ---------------------------------------------------------------- the store

  /** The outcome of the thumbnail attempt: `createThumbnail` threw, or it produced
      a thumbnail whose upload did or did not succeed and whose URL may be missing. */
  datatype ThumbnailOutcome = ThumbnailThrew | ThumbnailMade(uploaded: bool, signedUrl: Option<string>)

  class MediaStore {
    var media: seq<Media>
    /** Metric rows inserted by the analysis. */
    var metrics: seq<AiAnalysis.MetricDraft>
    /** The stored files, as (bucket, path). */
    var storage: set<(string, string)>
    /** Every analysis-status update, in order: (media id, new status). */
    ghost var statusLog: seq<(string, AnalysisStatus)>

    constructor(media0: seq<Media>, metrics0: seq<AiAnalysis.MetricDraft>, storage0: set<(string, string)>)
      ensures media == media0 && metrics == metrics0 && storage == storage0 && statusLog == []
    {
      media := media0;
      metrics := metrics0;
      storage := storage0;
      statusLog := [];
    }

    /** `uploadMedia`. `uuid` is the random file name, `now` the clock, `mediaId` the
        id the database gives the row; the other parameters are the outcomes of the
        backend calls in the order they happen. On success `analysis` is the analysis
        the upload sets off, to be run with `AnalyzeAndExtractMetrics`. */
    method UploadMedia(
      profileId: string, upload: Upload, kind: MediaKind, timestamp: Option<int>, notes: Option<string>,
      user: Option<string>, uuid: string, now: int, mediaId: string,
      uploadError: Option<string>, signed: Result<string>, thumbnail: ThumbnailOutcome,
      audioDuration: real, dbError: Option<string>)
      returns (r: Result<MediaWithUrls>, analysis: Option<AiAnalysis.SourceType>)
      modifies this
      ensures metrics == old(metrics) && statusLog == old(statusLog)
      ensures user.None? ==> r == Err("Not authenticated") && unchanged(this)
      ensures user.Some? && uploadError.Some? ==> r == Err(uploadError.value) && unchanged(this)
      ensures r.Ok? ==>
        var fileName := FileName(uuid, FileExt(upload));
        var path := StoragePath(user.value, profileId, fileName);
        var row := r.value.media;
        && analysis == AnalysisFor(kind)
        && media == old(media) + [row]
        && row.id == mediaId && row.profileId == profileId && row.kind == kind && row.filePath == path
        && row.size == UploadSize(upload) && row.mimeType == UploadMimeType(upload)
        && row.timestamp == timestamp.GetOr(now) && row.notes == notes
        && row.status == InitialStatus(kind) && row.analysisError.None? && row.deletedAt.None?
        && row.duration == (if kind == Voice then Some(audioDuration) else None)
        && (row.thumbnailPath.Some? <==> kind == Photo && upload.FileUpload? && thumbnail.ThumbnailMade?)
        && (row.thumbnailPath.Some? ==>
              row.thumbnailPath.value == StoragePath(user.value, profileId, ThumbnailName(fileName)))
        && signed.Ok? && r.value.url == signed.value
      ensures user.Some? && uploadError.None? ==>
        var fileName := FileName(uuid, FileExt(upload));
        var file := (Bucket(kind), StoragePath(user.value, profileId, fileName));
        var thumb := (Bucket(kind), StoragePath(user.value, profileId, ThumbnailName(fileName)));
        var made := kind == Photo && upload.FileUpload? && thumbnail.ThumbnailMade?;
        && (signed.Err? ==> r == Err(signed.error) && storage == old(storage) + {file})
        && (signed.Ok? ==> storage == old(storage) + {file} + if made && thumbnail.uploaded then {thumb} else {})
        && (signed.Ok? && dbError.Some? ==> r == Err(dbError.value))
        && (signed.Ok? && dbError.None? ==>
              r.Ok? && r.value.thumbnailUrl == if made then thumbnail.signedUrl else None)
      ensures r.Err? ==> media == old(media) && analysis.None?
    {
      analysis := None;
      if user.None? {
        return Err("Not authenticated"), None;
      }
      var userId := user.value;
      var ts := timestamp.GetOr(now);
      var fileExt := FileExt(upload);
      var fileName := FileName(uuid, fileExt);
      var filePath := StoragePath(userId, profileId, fileName);
      var bucket := Bucket(kind);
      if uploadError.Some? {
        return Err(uploadError.value), None;
      }
      storage := storage + {(bucket, filePath)};
      if signed.Err? {
        assert storage == old(storage) + {(bucket, filePath)};
        return Err(signed.error), None;
      }
      var publicUrl := signed.value;

      var thumbnailPath: Option<string> := None;
      var thumbnailUrl: Option<string> := None;
      if kind == Photo && upload.FileUpload? {
        match thumbnail
        case ThumbnailThrew =>
        case ThumbnailMade(uploaded, url) =>
          var thumbPath := StoragePath(userId, profileId, ThumbnailName(fileName));
          thumbnailPath := Some(thumbPath);
          if uploaded {
            storage := storage + {(bucket, thumbPath)};
          }
          thumbnailUrl := url;
      }

      var duration: Option<real> := None;
      if kind == Voice {
        duration := Some(audioDuration);
      }

      ghost var made := kind == Photo && upload.FileUpload? && thumbnail.ThumbnailMade?;
      assert thumbnailUrl == if made then thumbnail.signedUrl else None;
      assert storage == old(storage) + {(bucket, filePath)}
        + if made && thumbnail.uploaded then {(bucket, StoragePath(userId, profileId, ThumbnailName(fileName)))} else {};
      if dbError.Some? {
        return Err(dbError.value), None;
      }
      var row := Media(mediaId, profileId, kind, filePath, thumbnailPath, UploadSize(upload),
                       UploadMimeType(upload), duration, ts, notes, InitialStatus(kind), None, None);
      media := media + [row];
      r := Ok(MediaWithUrls(row, publicUrl, thumbnailUrl));
      analysis := AnalysisFor(kind);
    }

    /** The effect of one analysis run, from the state before it: the item went
        `analyzing` and then `completed`, with the drafts of the parsable measurements
        inserted, or `failed` with the error's message ("Unknown error" when empty) and
        no metric inserted. The stored files are untouched. */
    twostate predicate Analyzed(
      mediaId: string, profileId: string, timestamp: int, source: AiAnalysis.SourceType,
      detected: Result<seq<AiAnalysis.DetectedMeasurement>>, parseFloat: string -> Option<real>,
      insertOutcome: Outcome)
      reads this
    {
      && storage == old(storage)
      && var drafts := if detected.Ok? then
          AiAnalysis.ConvertMeasurementsToMetrics(detected.value, profileId, mediaId, timestamp, parseFloat, source)
        else [];
        var analyzing := SetStatus(old(media), mediaId, Analyzing);
        if detected.Ok? && (drafts == [] || insertOutcome.Succeeded?) then
          && metrics == old(metrics) + drafts
          && media == SetOutcome(analyzing, mediaId, Completed, None)
          && statusLog == old(statusLog) + [(mediaId, Analyzing), (mediaId, Completed)]
        else
          var message := if detected.Err? then detected.error else insertOutcome.message;
          && metrics == old(metrics)
          && media == SetOutcome(analyzing, mediaId, Failure, Some(MessageOr(message, "Unknown error")))
          && statusLog == old(statusLog) + [(mediaId, Analyzing), (mediaId, Failure)]
    }

    /** `analyzePhotoAndExtractMetrics` / `analyzeAudioAndExtractMetrics`: mark the
        item `analyzing`, ask the endpoint (`detected`, an error when it throws),
        insert the drafts when there are any (`insertOutcome`), then mark it
        `completed`, or `failed` with the error's message. */
    method AnalyzeAndExtractMetrics(
      mediaId: string, profileId: string, timestamp: int, source: AiAnalysis.SourceType,
      detected: Result<seq<AiAnalysis.DetectedMeasurement>>, parseFloat: string -> Option<real>,
      insertOutcome: Outcome)
      modifies this
      ensures Analyzed(mediaId, profileId, timestamp, source, detected, parseFloat, insertOutcome)
    {
      media := SetStatus(media, mediaId, Analyzing);
      statusLog := statusLog + [(mediaId, Analyzing)];
      var failure: Option<string> := None;
      if detected.Err? {
        failure := Some(detected.error);
      } else {
        var drafts := AiAnalysis.ConvertMeasurementsToMetrics(detected.value, profileId, mediaId, timestamp, parseFloat, source);
        if |drafts| > 0 {
          if insertOutcome.Failed? {
            failure := Some(insertOutcome.message);
          } else {
            metrics := metrics + drafts;
          }
        }
      }
      if failure.None? {
        media := SetOutcome(media, mediaId, Completed, None);
        statusLog := statusLog + [(mediaId, Completed)];
      } else {
        media := SetOutcome(media, mediaId, Failure, Some(MessageOr(failure.value, "Unknown error")));
        statusLog := statusLog + [(mediaId, Failure)];
      }
    }

    /** `retryAnalysis`: the item must exist ("Media not found") and get a signed URL
        ("Failed to get media URL"), and only photos and voice notes are analysed. */
    method RetryAnalysis(
      mediaId: string, fetchError: Option<string>, signedUrl: Option<string>,
      detected: Result<seq<AiAnalysis.DetectedMeasurement>>, parseFloat: string -> Option<real>,
      insertOutcome: Outcome)
      returns (r: Outcome)
      modifies this
      ensures fetchError.Some? || |WithId(old(media), mediaId)| != 1 ==>
        r == Failed("Media not found") && unchanged(this)
      ensures fetchError.None? && |WithId(old(media), mediaId)| == 1 &&
              (signedUrl.None? || signedUrl.value == "") ==>
        r == Failed("Failed to get media URL") && unchanged(this)
      ensures fetchError.None? && |WithId(old(media), mediaId)| == 1 &&
              signedUrl.Some? && signedUrl.value != "" ==>
        var m := WithId(old(media), mediaId)[0];
        && (AnalysisFor(m.kind).None? ==>
              r == Failed("Media type does not support analysis") && unchanged(this))
        && (AnalysisFor(m.kind).Some? ==>
              && r == Succeeded
              && Analyzed(mediaId, m.profileId, m.timestamp, AnalysisFor(m.kind).value, detected,
                          parseFloat, insertOutcome))
    {
      if fetchError.Some? {
        return Failed("Media not found");
      }
      var found := WithId(media, mediaId);
      if |found| != 1 {
        return Failed("Media not found");
      }
      var m := found[0];
      if signedUrl.None? || signedUrl.value == "" {
        return Failed("Failed to get media URL");
      }
      match AnalysisFor(m.kind)
      case None =>
        return Failed("Media type does not support analysis");
      case Some(source) =>
        AnalyzeAndExtractMetrics(m.id, m.profileId, m.timestamp, source, detected, parseFloat, insertOutcome);
        return Succeeded;
    }

    /** `deleteMedia`: look the item up, remove its files (a storage error is only
        logged), then soft-delete the row. */
    method DeleteMedia(id: string, now: int, fetchError: Option<string>, storageError: Option<string>,
                       dbError: Option<string>)
      returns (r: Outcome, filesToDelete: seq<string>)
      modifies this
      ensures metrics == old(metrics) && statusLog == old(statusLog)
      ensures fetchError.Some? ==> r == Failed(fetchError.value) && unchanged(this)
      ensures fetchError.None? && |WithId(old(media), id)| != 1 ==> r == Failed(SingleRowError) && unchanged(this)
      ensures fetchError.None? && |WithId(old(media), id)| == 1 ==>
        var m := WithId(old(media), id)[0];
        && filesToDelete == FilesOf(m)
        && storage == (if storageError.None? then old(storage) - set f | f in filesToDelete :: (Bucket(m.kind), f)
                       else old(storage))
        && (dbError.Some? ==> r == Failed(dbError.value) && media == old(media))
        && (dbError.None? ==> r == Succeeded && media == SoftDeleteWhere(old(media), id, now))
    {
      filesToDelete := [];
      if fetchError.Some? {
        return Failed(fetchError.value), filesToDelete;
      }
      var found := WithId(media, id);
      if |found| != 1 {
        return Failed(SingleRowError), filesToDelete;
      }
      var m := found[0];
      var bucket := Bucket(m.kind);
      filesToDelete := [m.filePath];
      if m.thumbnailPath.Some? && m.thumbnailPath.value != "" {
        filesToDelete := filesToDelete + [m.thumbnailPath.value];
      }
      if storageError.None? {
        storage := storage - set f | f in filesToDelete :: (bucket, f);
      }
      if dbError.Some? {
        return Failed(dbError.value), filesToDelete;
      }
      media := SoftDeleteWhere(media, id, now);
      return Succeeded, filesToDelete;
    }
  }

  /** A deleted item no longer appears in any listing. */
  lemma DeletedMediaIsNotListed(rows: seq<Media>, id: string, now: int, profileId: string,
                                kind: Option<MediaKind>, sign: (string, string) -> Option<string>)
    ensures forall x :: x in GetMedia(SoftDeleteWhere(rows, id, now), profileId, kind, sign) ==> x.media.id != id
  {
    var deleted := SoftDeleteWhere(rows, id, now);
    var listed := Listed(deleted, profileId, kind);
    var r := GetMedia(deleted, profileId, kind, sign);
    forall x | x in r
      ensures x.media.id != id
    {
      var k :| 0 <= k < |r| && r[k] == x;
      assert x.media == listed[k];
      assert listed[k] in listed;
      var i :| 0 <= i < |deleted| && deleted[i] == x.media;
    }
  }

  /** The analysis moves an item from `analyzing` to exactly one of `completed` and
      `failed`; `completed` never carries an error and `failed` (here `Failure`) always has one. */
  lemma AnalysisOutcomeExclusive(rows: seq<Media>, id: string, message: string)
    ensures forall m :: m in SetOutcome(SetStatus(rows, id, Analyzing), id, Completed, None) && m.id == id ==>
      m.status == Completed && m.analysisError.None?
    ensures forall m :: m in SetOutcome(SetStatus(rows, id, Analyzing), id, Failure,
                                        Some(MessageOr(message, "Unknown error"))) && m.id == id ==>
      m.status == Failure && m.analysisError.Some? && m.analysisError.value != ""
  {
  }
}
