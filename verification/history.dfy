/** The story history as `App.tsx` keeps it: segments appended at the end
    and the keyed image patch applied when an image request settles. */
module History {
  import opened Optional
  import opened Types

  /** How the image request of a turn ended, as the caller of the image
      service sees it: a URL, or an error thrown out of the call. */
  datatype ImageOutcome = Url(url: string) | Threw

  /** The image state a segment's optional fields encode. */
  datatype ImageStatus = NotApplicable | Pending | ResolvedWithImage | ResolvedWithoutImage

  function StatusOf(seg: StorySegment): ImageStatus
  {
    if seg.isLoadingImage == Some(true) then Pending
    else if seg.imageUrl.Some? then ResolvedWithImage
    else if seg.isLoadingImage == Some(false) then ResolvedWithoutImage
    else NotApplicable
  }

  /** The per-segment update of the image patch: on a URL the image is set
      and loading stops; on a throw only loading stops. */
  function Settle(seg: StorySegment, outcome: ImageOutcome): (r: StorySegment)
    ensures r.id == seg.id && r.role == seg.role && r.text == seg.text
    ensures r.options == seg.options && r.timestamp == seg.timestamp
    ensures r.isLoadingImage == Some(false)
    ensures outcome.Url? ==> r.imageUrl == Some(outcome.url) && StatusOf(r) == ResolvedWithImage
    ensures outcome.Threw? ==> r.imageUrl == seg.imageUrl
    ensures StatusOf(r) != Pending && StatusOf(r) != NotApplicable
  {
    match outcome
    case Url(u) => seg.(imageUrl := Some(u), isLoadingImage := Some(false))
    case Threw => seg.(isLoadingImage := Some(false))
  }

  /** The keyed image patch, applied to the latest history: every segment
      with the given id is settled, every other segment is left alone, and the
      length and order of the history are kept. */
  function PatchImage(h: seq<StorySegment>, id: string, outcome: ImageOutcome): (r: seq<StorySegment>)
    ensures |r| == |h|
    ensures forall i :: 0 <= i < |h| && h[i].id != id ==> r[i] == h[i]
    ensures forall i :: 0 <= i < |h| && h[i].id == id ==> r[i] == Settle(h[i], outcome)
  {
    seq(|h|, i requires 0 <= i < |h| => if h[i].id == id then Settle(h[i], outcome) else h[i])
  }

  /** The ids present in a history. */
  function Ids(h: seq<StorySegment>): (ids: seq<string>)
    ensures |ids| == |h|
    ensures forall i :: 0 <= i < |h| ==> ids[i] == h[i].id
  {
    seq(|h|, i requires 0 <= i < |h| => h[i].id)
  }

  /** Patching keeps every segment's id, role, text, options and timestamp:
      the narrative timeline is never changed by an image. */
  lemma PatchKeepsTimeline(h: seq<StorySegment>, id: string, outcome: ImageOutcome)
    ensures Ids(PatchImage(h, id, outcome)) == Ids(h)
    ensures forall i :: 0 <= i < |h| ==>
      var s := PatchImage(h, id, outcome)[i];
      s.role == h[i].role && s.text == h[i].text && s.options == h[i].options && s.timestamp == h[i].timestamp
  {
  }

  /** A patch whose id matches nothing is a no-op. */
  lemma PatchAbsentIsNoop(h: seq<StorySegment>, id: string, outcome: ImageOutcome)
    requires id !in Ids(h)
    ensures PatchImage(h, id, outcome) == h
  {
    var r := PatchImage(h, id, outcome);
    forall i | 0 <= i < |h| ensures r[i] == h[i] {
      assert Ids(h)[i] == h[i].id;
    }
  }

  /** Patches for different turns commute: image results arriving out of
      order produce the same history. */
  lemma PatchesCommute(h: seq<StorySegment>, a: string, oa: ImageOutcome, b: string, ob: ImageOutcome)
    requires a != b
    ensures PatchImage(PatchImage(h, a, oa), b, ob) == PatchImage(PatchImage(h, b, ob), a, oa)
  {
    var left := PatchImage(PatchImage(h, a, oa), b, ob);
    var right := PatchImage(PatchImage(h, b, ob), a, oa);
    forall i | 0 <= i < |h| ensures left[i] == right[i] {
      assert PatchImage(h, a, oa)[i].id == h[i].id;
      assert PatchImage(h, b, ob)[i].id == h[i].id;
    }
  }

  /** Settling the same outcome twice is the same as settling it once. */
  lemma PatchIdempotent(h: seq<StorySegment>, id: string, outcome: ImageOutcome)
    ensures PatchImage(PatchImage(h, id, outcome), id, outcome) == PatchImage(h, id, outcome)
  {
    var once := PatchImage(h, id, outcome);
    var twice := PatchImage(once, id, outcome);
    forall i | 0 <= i < |h| ensures twice[i] == once[i] {
      assert once[i].id == h[i].id;
    }
  }

  /** A patch targets by id, not by position: segments appended after the
      image request was issued do not change what it patches. */
  lemma PatchAfterAppend(h: seq<StorySegment>, later: seq<StorySegment>, id: string, outcome: ImageOutcome)
    requires id !in Ids(later)
    ensures PatchImage(h + later, id, outcome) == PatchImage(h, id, outcome) + later
  {
    var left := PatchImage(h + later, id, outcome);
    var right := PatchImage(h, id, outcome) + later;
    forall i | 0 <= i < |h| + |later| ensures left[i] == right[i] {
      if i >= |h| {
        assert Ids(later)[i - |h|] == later[i - |h|].id;
      }
    }
  }
}
