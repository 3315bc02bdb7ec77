/** The feed page's local entry list and voice-recording toggle. The display date and
    time come from the clock and the object URL from the browser; they are parameters. */
module FeedPage {
  import opened Wrappers

  datatype EntryType = Data | Photo | Voice

  datatype Entry = Entry(date: string, metric: string, value: string, time: string,
                         entryType: EntryType, imageUrl: Option<string>)

  /** The three entries the page starts with. */
  function SampleEntries(): (r: seq<Entry>)
    ensures |r| == 3 && forall e :: e in r ==> e.entryType == Data
  {
    [ Entry("2024-10-02", "Weight", "150 lbs", "08:30 AM", Data, None),
      Entry("2024-10-01", "Pulse", "72 bpm", "07:15 AM", Data, None),
      Entry("2024-10-01", "Blood Pressure", "120/80 mmHg", "07:10 AM", Data, None) ]
  }

  /** A selected file as far as the page uses it. */
  datatype SelectedFile = SelectedFile(name: string)

  /** The change either handler makes to the list: nothing, or one entry in front. */
  predicate Prepended(before: seq<Entry>, after: seq<Entry>) {
    after == before || (|after| == |before| + 1 && after[1..] == before)
  }

  class Feed {
    var entries: seq<Entry>
    var isRecording: bool

    constructor()
      ensures entries == SampleEntries() && !isRecording
    {
      entries := SampleEntries();
      isRecording := false;
    }

    /** `handleFileSelect`: no file, no change; a file adds one photo entry in front. */
    method HandleFileSelect(file: Option<SelectedFile>, date: string, time: string, objectUrl: string)
      modifies this
      ensures isRecording == old(isRecording) && Prepended(old(entries), entries)
      ensures file.None? ==> entries == old(entries)
      ensures file.Some? ==>
        entries == [Entry(date, "Photo", file.value.name, time, Photo, Some(objectUrl))] + old(entries)
    {
      if file.Some? {
        var newEntry := Entry(date, "Photo", file.value.name, time, Photo, Some(objectUrl));
        entries := [newEntry] + entries;
      }
    }

    /** `handleVoiceRecord`: starting a recording adds nothing; stopping one adds a
        voice entry in front. */
    method HandleVoiceRecord(date: string, time: string)
      modifies this
      ensures isRecording == !old(isRecording) && Prepended(old(entries), entries)
      ensures !old(isRecording) ==> entries == old(entries)
      ensures old(isRecording) ==>
        entries == [Entry(date, "Voice Note", "Audio recording", time, Voice, None)] + old(entries)
    {
      if isRecording {
        isRecording := false;
        var newEntry := Entry(date, "Voice Note", "Audio recording", time, Voice, None);
        entries := [newEntry] + entries;
      } else {
        isRecording := true;
      }
    }
  }

  /** Any run of handler calls only ever adds entries in front: the entries that were
      there stay, in order, at the end of the list. */
  lemma {:induction false} PrependedChain(history: seq<seq<Entry>>)
    requires |history| > 0
    requires forall k :: 0 <= k < |history| - 1 ==> Prepended(history[k], history[k + 1])
    ensures |history[|history| - 1]| >= |history[0]|
    ensures history[|history| - 1][|history[|history| - 1]| - |history[0]|..] == history[0]
    decreases |history|
  {
    if |history| > 1 {
      var front := history[..|history| - 1];
      PrependedChain(front);
      var mid := history[|history| - 2];
      var last := history[|history| - 1];
      assert front[|front| - 1] == mid && front[0] == history[0];
      assert Prepended(mid, last);
      if last != mid {
        assert last[1..] == mid;
        assert last[|last| - |history[0]|..] == mid[|mid| - |history[0]|..];
      }
    }
  }
}
