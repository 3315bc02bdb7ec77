/** The feed: metrics and media items of a profile merged into one list, newest first.
    Display dates and times are locale formatting and are not modelled; a metric's
    value is rendered by the `show` parameter (`Number.prototype.toString`). */
module FeedEntries {
  import opened Wrappers
  import Sequences
  import MetricService
  import MediaService

  datatype EntryType = MetricEntry | MediaEntry

  datatype FeedEntry = FeedEntry(
    id: string, entryType: EntryType, timestamp: int,
    metricType: Option<string>, value: Option<string>, unit: Option<string>,
    mediaType: Option<MediaService.MediaKind>, mediaUrl: Option<string>, thumbnailUrl: Option<string>,
    notes: Option<string>)

  function EntryOfMetric(m: MetricService.Metric, show: real -> string): FeedEntry {
    FeedEntry(m.id, MetricEntry, m.timestamp, Some(m.metricType), Some(show(m.value)), Some(m.unit),
              None, None, None, m.notes)
  }

  function EntryOfMedia(item: MediaService.MediaWithUrls): FeedEntry {
    FeedEntry(item.media.id, MediaEntry, item.media.timestamp, None, None, None,
              Some(item.media.kind), Some(item.url), item.thumbnailUrl, item.media.notes)
  }

  function MetricEntries(metrics: seq<MetricService.Metric>, show: real -> string): (r: seq<FeedEntry>)
    ensures |r| == |metrics|
    ensures forall k :: 0 <= k < |metrics| ==> r[k] == EntryOfMetric(metrics[k], show)
  {
    seq(|metrics|, k requires 0 <= k < |metrics| => EntryOfMetric(metrics[k], show))
  }

  function MediaEntries(media: seq<MediaService.MediaWithUrls>): (r: seq<FeedEntry>)
    ensures |r| == |media|
    ensures forall k :: 0 <= k < |media| ==> r[k] == EntryOfMedia(media[k])
  {
    seq(|media|, k requires 0 <= k < |media| => EntryOfMedia(media[k]))
  }

  function Timestamp(e: FeedEntry): int {
    e.timestamp
  }

  /** The merged, ordered feed. */
  function Feed(metrics: seq<MetricService.Metric>, media: seq<MediaService.MediaWithUrls>,
                show: real -> string): seq<FeedEntry>
  {
    Sequences.SortDesc(MetricEntries(metrics, show) + MediaEntries(media), Timestamp)
  }

  /** The `entries` memo: push one entry per metric, then one per media item, then
      sort by timestamp, newest first. */
  method Entries(metrics: seq<MetricService.Metric>, media: seq<MediaService.MediaWithUrls>,
                 show: real -> string)
    returns (entries: seq<FeedEntry>)
    ensures entries == Feed(metrics, media, show)
  {
    var combined: seq<FeedEntry> := [];
    for i := 0 to |metrics|
      invariant combined == MetricEntries(metrics[..i], show)
    {
      combined := combined + [EntryOfMetric(metrics[i], show)];
    }
    assert metrics[..|metrics|] == metrics;
    for i := 0 to |media|
      invariant combined == MetricEntries(metrics, show) + MediaEntries(media[..i])
    {
      combined := combined + [EntryOfMedia(media[i])];
    }
    assert media[..|media|] == media;
    entries := Sequences.SortDesc(combined, Timestamp);
  }

  /** One entry per metric and one per media item, newest first, and every metric
      and every media item has its entry. */
  lemma FeedHasEveryItem(metrics: seq<MetricService.Metric>, media: seq<MediaService.MediaWithUrls>,
                         show: real -> string)
    ensures var feed := Feed(metrics, media, show);
      && |feed| == |metrics| + |media|
      && (forall i, j :: 0 <= i < j < |feed| ==> feed[i].timestamp >= feed[j].timestamp)
      && (forall k :: 0 <= k < |metrics| ==> EntryOfMetric(metrics[k], show) in feed)
      && (forall k :: 0 <= k < |media| ==> EntryOfMedia(media[k]) in feed)
  {
    var combined := MetricEntries(metrics, show) + MediaEntries(media);
    forall k | 0 <= k < |metrics|
      ensures EntryOfMetric(metrics[k], show) in Feed(metrics, media, show)
    {
      assert combined[k] == EntryOfMetric(metrics[k], show);
      Sequences.SortDescSameElements(combined, Timestamp, combined[k]);
    }
    forall k | 0 <= k < |media|
      ensures EntryOfMedia(media[k]) in Feed(metrics, media, show)
    {
      assert combined[|metrics| + k] == EntryOfMedia(media[k]);
      Sequences.SortDescSameElements(combined, Timestamp, combined[|metrics| + k]);
    }
  }

  /** Every entry of the feed is the entry of one metric or of one media item. */
  lemma FeedEntriesComeFromSources(metrics: seq<MetricService.Metric>, media: seq<MediaService.MediaWithUrls>,
                                   show: real -> string, e: FeedEntry)
    requires e in Feed(metrics, media, show)
    ensures (exists k :: 0 <= k < |metrics| && e == EntryOfMetric(metrics[k], show)) ||
            (exists k :: 0 <= k < |media| && e == EntryOfMedia(media[k]))
  {
    var combined := MetricEntries(metrics, show) + MediaEntries(media);
    Sequences.SortDescSameElements(combined, Timestamp, e);
    var i :| 0 <= i < |combined| && combined[i] == e;
    if i >= |metrics| {
      assert e == EntryOfMedia(media[i - |metrics|]);
    } else {
      assert e == EntryOfMetric(metrics[i], show);
    }
  }

  /** The sort is stable: among entries with the same timestamp, metric entries come
      before media entries, each in the order of its source list. */
  lemma FeedTiesKeepSourceOrder(metrics: seq<MetricService.Metric>, media: seq<MediaService.MediaWithUrls>,
                                show: real -> string, t: int)
    ensures Sequences.WithKey(Feed(metrics, media, show), Timestamp, t)
         == Sequences.WithKey(MetricEntries(metrics, show), Timestamp, t)
          + Sequences.WithKey(MediaEntries(media), Timestamp, t)
  {
    var combined := MetricEntries(metrics, show) + MediaEntries(media);
    Sequences.SortDescStable(combined, Timestamp, t);
    Sequences.WithKeyAppend(MetricEntries(metrics, show), MediaEntries(media), Timestamp, t);
  }

  /** The two lists the feed reads and their loading flags. */
  class FeedSources {
    var metrics: seq<MetricService.Metric>
    var media: seq<MediaService.MediaWithUrls>
    var metricsLoading: bool
    var mediaLoading: bool

    constructor()
      ensures metrics == [] && media == [] && metricsLoading && mediaLoading
    {
      metrics := [];
      media := [];
      metricsLoading := true;
      mediaLoading := true;
    }

    /** The feed is loading while either list is. */
    predicate Loading()
      reads this
    {
      metricsLoading || mediaLoading
    }

    /** `refetch`: both lists are fetched again (nothing happens without a profile). */
    method Refetch(profileId: Option<string>, fetchedMetrics: seq<MetricService.Metric>,
                   fetchedMedia: seq<MediaService.MediaWithUrls>)
      modifies this
      ensures metricsLoading == old(metricsLoading) && mediaLoading == old(mediaLoading)
      ensures profileId.None? || profileId.value == "" ==> metrics == old(metrics) && media == old(media)
      ensures profileId.Some? && profileId.value != "" ==> metrics == fetchedMetrics && media == fetchedMedia
    {
      if profileId.Some? && profileId.value != "" {
        metrics := fetchedMetrics;
        media := fetchedMedia;
      }
    }
  }
}
