/** A unit of download work and its identity, which the discovery step uses
    to avoid enqueuing the same media twice. */
module Tasks {

  datatype TaskKind = Image | Video

  /** `id` is the dedup key, `pid` the photo id, `url` the address of the
      first download attempt and `filename` the name it is saved under. */
  datatype Task = Task(id: string, kind: TaskKind, pid: string, url: string, filename: string)

  const ImageIdPrefix: string := "img:"
  const VideoIdPrefix: string := "vid:"

  /** `img:<pid>`. */
  function ImageTaskId(pid: string): (id: string)
    ensures |id| == |ImageIdPrefix| + |pid|
    ensures id[..|ImageIdPrefix|] == ImageIdPrefix && id[|ImageIdPrefix|..] == pid
  {
    ImageIdPrefix + pid
  }

  /** `vid:<pid>:<url>`. */
  function VideoTaskId(pid: string, url: string): (id: string)
    ensures |id| == |VideoIdPrefix| + |pid| + 1 + |url|
    ensures id[..|VideoIdPrefix|] == VideoIdPrefix
    ensures id[|VideoIdPrefix|..|VideoIdPrefix| + |pid|] == pid && id[|VideoIdPrefix| + |pid|] == ':'
    ensures id[|VideoIdPrefix| + |pid| + 1..] == url
  {
    VideoIdPrefix + pid + ":" + url
  }

  /** Image identities differ exactly when their photo ids do. */
  lemma ImageTaskIdInjective(p: string, q: string)
    ensures ImageTaskId(p) == ImageTaskId(q) <==> p == q
  {
    if ImageTaskId(p) == ImageTaskId(q) {
      assert p == ImageTaskId(p)[|ImageIdPrefix|..];
    }
  }

  /** An image and a companion video never share an identity, even for the
      same photo, so both are enqueued. */
  lemma ImageAndVideoIdsDiffer(p: string, q: string, url: string)
    ensures ImageTaskId(p) != VideoTaskId(q, url)
  {
    assert ImageTaskId(p)[0] == 'i' && VideoTaskId(q, url)[0] == 'v';
  }
}
