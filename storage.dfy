/** The record store of src/utils/storage.ts. The browser's `localStorage`
    entry under `video_platform_videos`, read with `JSON.parse` and written
    with `JSON.stringify`, is one field holding the decoded list, or `None`
    while the key has never been written. */
module Storage {
  import opened Wrappers

  /** `Video` from src/types/video.ts; `createdAt` is a millisecond timestamp. */
  datatype Video = Video(id: string, url: string, title: string, description: Option<string>,
                         subtitles: Option<string>, createdAt: int)

  /** `videos.findIndex(v => v.id === id)`: the first position holding `id`,
      or -1 when there is none. */
  function FindIndex(videos: seq<Video>, id: string): (k: int)
    ensures -1 <= k < |videos|
    ensures k == -1 <==> forall i :: 0 <= i < |videos| ==> videos[i].id != id
    ensures k >= 0 ==> videos[k].id == id && forall i :: 0 <= i < k ==> videos[i].id != id
  {
    if videos == [] then -1
    else if videos[0].id == id then 0
    else
      var k := FindIndex(videos[1..], id);
      assert forall i :: 1 <= i < |videos| ==> videos[i] == videos[1..][i - 1];
      if k == -1 then -1 else k + 1
  }

  /** `videos.filter(v => v.id !== id)`. */
  function RemoveAll(videos: seq<Video>, id: string): (r: seq<Video>)
    ensures |r| <= |videos|
    ensures forall i :: 0 <= i < |r| ==> r[i].id != id
    ensures forall v :: v in r <==> v in videos && v.id != id
  {
    if videos == [] then []
    else if videos[0].id == id then RemoveAll(videos[1..], id)
    else [videos[0]] + RemoveAll(videos[1..], id)
  }

  /** The filter works record by record, so the kept records stay in their
      relative order. */
  lemma {:induction false} RemoveAllConcat(a: seq<Video>, b: seq<Video>, id: string)
    ensures RemoveAll(a + b, id) == RemoveAll(a, id) + RemoveAll(b, id)
  {
    if a == [] {
      assert a + b == b;
    } else {
      assert (a + b)[0] == a[0];
      assert (a + b)[1..] == a[1..] + b;
      RemoveAllConcat(a[1..], b, id);
    }
  }

  /** Every other record survives with its multiplicity, duplicates included. */
  lemma {:induction false} RemoveAllKeepsOthers(videos: seq<Video>, id: string, v: Video)
    requires v.id != id
    ensures multiset(RemoveAll(videos, id))[v] == multiset(videos)[v]
  {
    if videos != [] {
      RemoveAllKeepsOthers(videos[1..], id, v);
      assert videos == [videos[0]] + videos[1..];
    }
  }

  /** Removing an id that is not there changes nothing. */
  lemma {:induction false} RemoveAbsent(videos: seq<Video>, id: string)
    requires forall i :: 0 <= i < |videos| ==> videos[i].id != id
    ensures RemoveAll(videos, id) == videos
  {
    if videos != [] {
      assert forall i :: 0 <= i < |videos[1..]| ==> videos[1..][i] == videos[i + 1];
      RemoveAbsent(videos[1..], id);
      assert videos == [videos[0]] + videos[1..];
    }
  }

  /** Deleting twice is deleting once. */
  lemma RemoveAllIdempotent(videos: seq<Video>, id: string)
    ensures RemoveAll(RemoveAll(videos, id), id) == RemoveAll(videos, id)
  {
    RemoveAbsent(RemoveAll(videos, id), id);
  }

  /** `videos[index] = updatedVideo` at the first position holding its id;
      the list is returned unchanged when the id is absent. */
  function ReplaceFirst(videos: seq<Video>, video: Video): (r: seq<Video>)
    ensures |r| == |videos|
    ensures FindIndex(videos, video.id) == -1 ==> r == videos
    ensures FindIndex(videos, video.id) >= 0 ==> r[FindIndex(videos, video.id)] == video
    ensures forall i :: 0 <= i < |videos| && i != FindIndex(videos, video.id) ==> r[i] == videos[i]
  {
    var k := FindIndex(videos, video.id);
    if k == -1 then videos else videos[k := video]
  }

  /** After a replacement the record is found where it was put. */
  lemma ReplaceThenFind(videos: seq<Video>, video: Video)
    ensures FindIndex(ReplaceFirst(videos, video), video.id) == FindIndex(videos, video.id)
  {
    var k := FindIndex(videos, video.id);
    var r := ReplaceFirst(videos, video);
    if k >= 0 {
      assert forall i :: 0 <= i < k ==> r[i] == videos[i];
    }
  }

  /** An appended record whose id was new is found at the end. */
  lemma AppendThenFind(videos: seq<Video>, video: Video)
    requires FindIndex(videos, video.id) == -1
    ensures FindIndex(videos + [video], video.id) == |videos|
  {
    var r := videos + [video];
    assert r[|videos|] == video;
    assert forall i :: 0 <= i < |videos| ==> r[i] == videos[i] && r[i].id != video.id;
  }

  /** After a delete the id is not found. */
  lemma RemoveThenFind(videos: seq<Video>, id: string)
    ensures FindIndex(RemoveAll(videos, id), id) == -1
  {
  }

  /** Deleting a just-saved record whose id was new restores the list. */
  lemma SaveThenDelete(videos: seq<Video>, video: Video)
    requires FindIndex(videos, video.id) == -1
    ensures RemoveAll(videos + [video], video.id) == videos
  {
    RemoveAllConcat(videos, [video], video.id);
    RemoveAbsent(videos, video.id);
    assert RemoveAll([video], video.id) == [];
  }

  /** The store, with the operations of storage.ts as methods. */
  class VideoStore {
    /** The decoded list under the storage key; `None` when absent. */
    var stored: Option<seq<Video>>

    /** The list `getVideos` returns. */
    function Videos(): (videos: seq<Video>)
      reads this
      ensures stored.None? ==> videos == []
    {
      match stored
      case None => []
      case Some(vs) => vs
    }

    /** A browser whose storage has never held the key. */
    constructor ()
      ensures stored == None
    {
      stored := None;
    }

    /** `getVideos`: the stored list, or the empty list when nothing is stored. */
    method GetVideos() returns (videos: seq<Video>)
      ensures stored.None? ==> videos == []
      ensures stored.Some? ==> videos == stored.value
    {
      if stored.None? {
        videos := [];
      } else {
        videos := stored.value;
      }
    }

    /** `saveVideo`: append at the end and write back; no uniqueness check. */
    method SaveVideo(video: Video)
      modifies this
      ensures stored == Some(old(Videos()) + [video])
    {
      var videos := GetVideos();
      stored := Some(videos + [video]);
    }

    /** `updateVideo`: replace the first record with the same id and write
      back; when the id is absent nothing is written at all. */
    method UpdateVideo(video: Video)
      modifies this
      ensures FindIndex(old(Videos()), video.id) == -1 ==> stored == old(stored)
      ensures FindIndex(old(Videos()), video.id) >= 0 ==> stored == Some(ReplaceFirst(old(Videos()), video))
    {
      var videos := GetVideos();
      var index := FindIndex(videos, video.id);
      if index != -1 {
        stored := Some(ReplaceFirst(videos, video));
      }
    }

    /** `deleteVideo`: keep the records with another id and always write back. */
    method DeleteVideo(id: string)
      modifies this
      ensures stored == Some(RemoveAll(old(Videos()), id))
    {
      var videos := GetVideos();
      stored := Some(RemoveAll(videos, id));
    }
  }
}
