/** The discovery step: turning the album listing into download tasks.
    Each listed item yields an image task and, for a live photo with a video,
    a video task; a task is enqueued only if its identity has not been seen in
    this run.  Missing dates are filled in from a rolling year/month cursor,
    which may probe a post's creation time until the first item with an
    explicit date arrives.  Network answers are oracle arguments: the listing
    pages, the probed creation times and the random mirror draws. */
module Discovery {
  import opened Text
  import opened Tasks
  import CreatedAt
  import Naming
  import Hosts

  const UnknownDatePart: string := "unknown"
  const NoMid: string := "nomid"
  const ImageExt: string := ".jpg"
  /** The first request asks for this cursor, and a page answering it (or the
      empty text) is the last one. */
  const FirstCursor: string := "0"

  /** One listing entry, with the values the downloader reads from it already
      converted to text: `pid` and `mid` are "" where the field is missing or
      falsy, the timeline fields are "" where the field is `null` or missing
      and otherwise its text.  `video` is the companion video's URL after
      normalisation and `videoPath` that URL's path (`None` when it does not
      parse). */
  datatype RawItem = RawItem(pid: string, mid: string, timelineYear: string, timelineMonth: string,
                             isLivePhoto: bool, video: string, videoPath: Option<string>)

  /** What the outside world answers while one item is processed: the
      creation time a probe would fetch ("" when the lookup fails) and the
      random draw that picks the image's mirror. */
  datatype ItemOracle = ItemOracle(createdAt: string, hostDraw: nat)

  /** The rolling date state of one run. */
  datatype TimelineCursor = TimelineCursor(lastYear: string, lastMonth: string, probeActive: bool)

  const InitialCursor := TimelineCursor("", "", true)

  datatype Timeline = Timeline(cursor: TimelineCursor, year: string, month: string, probed: bool)

  /** `resolveTimeline`: an item with both an explicit year and month uses them
      and turns the probe off for good; otherwise explicit parts update the
      cursor, a probe is made while probing is still on, and each missing
      part falls back to the latest known value or "unknown". */
  function ResolveTimeline(c: TimelineCursor, item: RawItem, mid: string, createdAt: string): (r: Timeline)
    ensures r.year != [] && r.month != []
    ensures var y := Trim(item.timelineYear); var m := Trim(item.timelineMonth);
            (y != [] && m != [] ==> r.year == y && r.month == m && !r.cursor.probeActive)
            && (r.probed <==> c.probeActive && mid != [] && (y == [] || m == []))
            && (r.cursor.probeActive <==> c.probeActive && (y == [] || m == []))
    ensures r.cursor.lastYear != [] ==> r.year == r.cursor.lastYear
    ensures r.cursor.lastYear == [] ==> r.year == UnknownDatePart
    ensures r.cursor.lastMonth != [] ==> r.month == r.cursor.lastMonth
    ensures r.cursor.lastMonth == [] ==> r.month == UnknownDatePart
    ensures c.lastYear != [] ==> r.cursor.lastYear != []
    ensures c.lastMonth != [] ==> r.cursor.lastMonth != []
    ensures Trim(item.timelineYear) != [] && !r.probed ==> r.cursor.lastYear == Trim(item.timelineYear)
    ensures Trim(item.timelineMonth) != [] && !r.probed ==> r.cursor.lastMonth == Trim(item.timelineMonth)
    ensures var y := Trim(item.timelineYear); var m := Trim(item.timelineMonth);
            var parsed := CreatedAt.ParseCreatedAtToYearMonth(createdAt);
            var adopted := r.probed && parsed.Some?;
            r.cursor.lastYear == (if adopted then parsed.value.year else if y != [] then y else c.lastYear)
            && r.cursor.lastMonth == (if adopted then parsed.value.month else if m != [] then m else c.lastMonth)
  {
    var y := Trim(item.timelineYear);
    var m := Trim(item.timelineMonth);
    if y != [] && m != [] then
      Timeline(TimelineCursor(y, m, false), y, m, false)
    else
      var probe := c.probeActive && mid != [];
      var parsed := if probe then CreatedAt.ParseCreatedAtToYearMonth(createdAt) else None;
      var ly := if parsed.Some? then parsed.value.year else if y != [] then y else c.lastYear;
      var lm := if parsed.Some? then parsed.value.month else if m != [] then m else c.lastMonth;
      Timeline(TimelineCursor(ly, lm, c.probeActive),
               if ly != [] then ly else UnknownDatePart,
               if lm != [] then lm else UnknownDatePart,
               probe)
  }

  /** The partner of the probe: an entry missing a date part, met while
      probing with a message id, takes both parts from a well-formed creation
      time naming a real month, and the cursor keeps them for later entries. */
  lemma ProbeAdoptsCreationTime(c: TimelineCursor, item: RawItem, mid: string, t: CreatedAt.CreatedAtText)
    requires c.probeActive && mid != []
    requires Trim(item.timelineYear) == [] || Trim(item.timelineMonth) == []
    requires CreatedAt.WellFormed(t) && CreatedAt.MonthCode(t.mon).Some?
    ensures var month := CreatedAt.MonthCode(t.mon).value;
            ResolveTimeline(c, item, mid, CreatedAt.Render(t))
              == Timeline(TimelineCursor(t.year, month, true), t.year, month, true)
  {
    CreatedAt.ParseRendered(t);
  }

  /** The producer's share of the run state. `probes` counts the creation
      time lookups issued. */
  datatype Producer = Producer(queue: seq<Task>, seen: set<string>, discovered: nat,
                               cursor: TimelineCursor, stopped: bool, probes: nat)

  const InitialProducer := Producer([], {}, 0, InitialCursor, false, 0)

  predicate DistinctIds(q: seq<Task>) {
    forall i, j :: 0 <= i < j < |q| ==> q[i].id != q[j].id
  }

  /** The queue never holds two tasks with one identity, and every queued
      identity is recorded as seen. */
  predicate ProducerInv(p: Producer) {
    DistinctIds(p.queue) && forall i :: 0 <= i < |p.queue| ==> p.queue[i].id in p.seen
  }

  /** The check-then-insert step: a task whose identity is new is appended
      and counted, and its identity recorded; any other task changes nothing. */
  function Push(p: Producer, t: Task): (r: Producer)
    ensures ProducerInv(p) ==> ProducerInv(r)
    ensures t.id in p.seen ==> r == p
    ensures t.id !in p.seen ==>
              r.queue == p.queue + [t] && r.seen == p.seen + {t.id} && r.discovered == p.discovered + 1
    ensures r.cursor == p.cursor && r.stopped == p.stopped && r.probes == p.probes
  {
    if t.id in p.seen then p
    else p.(queue := p.queue + [t], seen := p.seen + {t.id}, discovered := p.discovered + 1)
  }

  /** The identities a run of tasks carries. */
  function Ids(ts: seq<Task>): (r: set<string>)
    ensures forall i :: 0 <= i < |ts| ==> ts[i].id in r
    decreases |ts|
  {
    if ts == [] then {} else {ts[0].id} + Ids(ts[1..])
  }

  lemma {:induction false} IdsAppend(a: seq<Task>, b: seq<Task>)
    ensures Ids(a + b) == Ids(a) + Ids(b)
    decreases |a|
  {
    if a != [] {
      assert (a + b)[1..] == a[1..] + b;
      IdsAppend(a[1..], b);
    } else {
      assert a + b == b;
    }
  }

  /** Reference definition of de-duplication: the tasks of `ts`, in order,
      whose identity is neither in `seen` nor carried by an earlier task of
      `ts`. */
  function Dedup(seen: set<string>, ts: seq<Task>): (r: seq<Task>)
    ensures |r| <= |ts|
    decreases |ts|
  {
    if ts == [] then []
    else if ts[0].id in seen then Dedup(seen, ts[1..])
    else [ts[0]] + Dedup(seen + {ts[0].id}, ts[1..])
  }

  /** Every de-duplicated task is one of the tasks it was drawn from, with an
      identity not seen before. */
  lemma {:induction false} DedupDrawn(seen: set<string>, ts: seq<Task>)
    ensures forall i :: 0 <= i < |Dedup(seen, ts)| ==> Dedup(seen, ts)[i] in ts && Dedup(seen, ts)[i].id !in seen
    decreases |ts|
  {
    if ts != [] {
      DedupCons(seen, ts);
      var seen1 := if ts[0].id in seen then seen else seen + {ts[0].id};
      var rest := Dedup(seen1, ts[1..]);
      DedupDrawn(seen1, ts[1..]);
      var r := Dedup(seen, ts);
      forall i | 0 <= i < |r|
        ensures r[i] in ts && r[i].id !in seen
      {
        if ts[0].id in seen {
          assert r[i] == rest[i] && rest[i] in ts[1..];
        } else if i > 0 {
          assert r[i] == rest[i - 1] && rest[i - 1] in ts[1..];
        }
      }
    }
  }

  /** De-duplication and identities of a non-empty run, one task at a time. */
  lemma DedupCons(seen: set<string>, ts: seq<Task>)
    requires ts != []
    ensures Dedup(seen, ts) == if ts[0].id in seen then Dedup(seen, ts[1..])
                               else [ts[0]] + Dedup(seen + {ts[0].id}, ts[1..])
    ensures Ids(ts) == {ts[0].id} + Ids(ts[1..])
  {
    assert Ids(ts) == {ts[0].id} + Ids(ts[1..]);
  }

  /** De-duplicated tasks carry distinct identities, and between them every
      identity of the tasks they were drawn from that was not seen before. */
  lemma {:induction false} DedupDistinct(seen: set<string>, ts: seq<Task>)
    ensures DistinctIds(Dedup(seen, ts))
    ensures seen + Ids(Dedup(seen, ts)) == seen + Ids(ts)
    decreases |ts|
  {
    if ts != [] {
      var t := ts[0];
      DedupCons(seen, ts);
      if t.id in seen {
        DedupDistinct(seen, ts[1..]);
      } else {
        var rest := Dedup(seen + {t.id}, ts[1..]);
        DedupDistinct(seen + {t.id}, ts[1..]);
        DedupDrawn(seen + {t.id}, ts[1..]);
        ConsDistinct(t, rest, seen + {t.id});
      }
    }
  }

  /** A task put in front of distinct tasks none of which has its identity. */
  lemma ConsDistinct(t: Task, rest: seq<Task>, seen: set<string>)
    requires t.id in seen && DistinctIds(rest)
    requires forall i :: 0 <= i < |rest| ==> rest[i].id !in seen
    ensures DistinctIds([t] + rest)
    ensures Ids([t] + rest) == {t.id} + Ids(rest)
  {
    var r := [t] + rest;
    assert r[1..] == rest;
    forall i, j | 0 <= i < j < |r|
      ensures r[i].id != r[j].id
    {
      assert r[j] == rest[j - 1];
    }
  }

  /** De-duplicating a concatenation is de-duplicating the first part, then
      the second against everything the first part carried. */
  lemma {:induction false} DedupAppend(seen: set<string>, a: seq<Task>, b: seq<Task>)
    ensures Dedup(seen, a + b) == Dedup(seen, a) + Dedup(seen + Ids(a), b)
    decreases |a|
  {
    if a == [] {
      assert a + b == b;
      assert seen + Ids(a) == seen;
    } else {
      var ab := a + b;
      assert ab[0] == a[0] && ab[1..] == a[1..] + b;
      DedupCons(seen, a);
      DedupCons(seen, ab);
      if a[0].id in seen {
        DedupAppend(seen, a[1..], b);
        assert seen + Ids(a[1..]) == seen + Ids(a);
      } else {
        var seen1 := seen + {a[0].id};
        DedupAppend(seen1, a[1..], b);
        var x := Dedup(seen1, a[1..]);
        var y := Dedup(seen1 + Ids(a[1..]), b);
        assert seen1 + Ids(a[1..]) == seen + Ids(a);
        assert Dedup(seen, ab) == [a[0]] + (x + y) == ([a[0]] + x) + y;
      }
    }
  }

  /** Pushes the tasks in order, each through the check-then-insert step:
      the queue grows by the de-duplicated tasks and every identity becomes
      seen. */
  function PushAll(p: Producer, ts: seq<Task>): (r: Producer)
    ensures ProducerInv(p) ==> ProducerInv(r)
    ensures r.queue == p.queue + Dedup(p.seen, ts)
    ensures r.seen == p.seen + Ids(ts)
    ensures r.discovered == p.discovered + |Dedup(p.seen, ts)|
    ensures r.cursor == p.cursor && r.stopped == p.stopped && r.probes == p.probes
    decreases |ts|
  {
    if ts == [] then p
    else
      PushStep(p, ts);
      PushAll(Push(p, ts[0]), ts[1..])
  }

  /** Pushing the first task, then the rest, is de-duplicating them all. */
  lemma PushStep(p: Producer, ts: seq<Task>)
    requires ts != []
    ensures var p1 := Push(p, ts[0]);
            var d := Dedup(p1.seen, ts[1..]);
            p.queue + Dedup(p.seen, ts) == p1.queue + d
            && p.discovered + |Dedup(p.seen, ts)| == p1.discovered + |d|
            && p.seen + Ids(ts) == p1.seen + Ids(ts[1..])
  {
    assert Ids(ts) == {ts[0].id} + Ids(ts[1..]);
    var d := Dedup(p.seen + {ts[0].id}, ts[1..]);
    if ts[0].id !in p.seen {
      assert p.queue + ([ts[0]] + d) == p.queue + [ts[0]] + d;
    }
  }

  /** The new part of a pushed queue: tasks drawn from those pushed, none
      seen before. */
  lemma PushAllNew(p: Producer, ts: seq<Task>)
    ensures var r := PushAll(p, ts);
            |p.queue| <= |r.queue| <= |p.queue| + |ts| && r.queue[..|p.queue|] == p.queue
            && p.seen <= r.seen
            && forall i :: |p.queue| <= i < |r.queue| ==> r.queue[i] in ts && r.queue[i].id !in p.seen
  {
    var r := PushAll(p, ts);
    var d := Dedup(p.seen, ts);
    DedupDrawn(p.seen, ts);
    assert r.queue[..|p.queue|] == p.queue;
    forall i | |p.queue| <= i < |r.queue|
      ensures r.queue[i] in ts && r.queue[i].id !in p.seen
    {
      assert r.queue[i] == d[i - |p.queue|];
    }
  }

  /** The leading part of a file name for an entry: its `mid`, or "nomid"
    * when the entry carries none. */
  function MidOf(item: RawItem): (mid: string)
    ensures mid != []
    ensures item.mid != [] ==> mid == item.mid
    ensures item.mid == [] ==> mid == NoMid
  {
    if item.mid != [] then item.mid else NoMid
  }

  /** The image task of an entry, named after the base name. */
  function ImageTask(item: RawItem, base: string, hostDraw: nat): (t: Task)
    ensures t.kind == Image && t.pid == item.pid && t.id == ImageTaskId(item.pid)
    ensures t.url == Hosts.BuildImageUrl(item.pid, hostDraw)
    ensures t.filename == base + ".jpg"
  {
    Task(ImageTaskId(item.pid), Image, item.pid, Hosts.BuildImageUrl(item.pid, hostDraw),
         base + ImageExt)
  }

  /** The video task of a live photo: the normalised video URL, named after
      the base name with the extension guessed from the URL's path. */
  function VideoTask(item: RawItem, base: string): (t: Task)
    ensures t.kind == Video && t.pid == item.pid && t.id == VideoTaskId(item.pid, item.video)
    ensures t.url == item.video
    ensures t.filename == base + Naming.GuessVideoExt(item.videoPath)
  {
    Task(VideoTaskId(item.pid, item.video), Video, item.pid, item.video,
         base + Naming.GuessVideoExt(item.videoPath))
  }

  /** A live photo whose video URL survived normalisation. */
  predicate HasVideo(item: RawItem) {
    item.isLivePhoto && item.video != []
  }

  /** The image task, followed by the video task for a live photo, both
      named after the base name. */
  function ItemTasks(item: RawItem, base: string, hostDraw: nat): (ts: seq<Task>)
    ensures |ts| == if HasVideo(item) then 2 else 1
    ensures ts[0] == ImageTask(item, base, hostDraw)
    ensures ts[0].kind == Image && ts[0].id == ImageTaskId(item.pid)
    ensures ts[0].filename == base + ".jpg" && ts[0].url == Hosts.BuildImageUrl(item.pid, hostDraw)
    ensures HasVideo(item) ==> ts[1] == VideoTask(item, base)
    ensures HasVideo(item) ==> ts[1].kind == Video && ts[1].id == VideoTaskId(item.pid, item.video)
    ensures HasVideo(item) ==>
              ts[1].filename == base + Naming.GuessVideoExt(item.videoPath) && ts[1].url == item.video
    ensures forall i :: 0 <= i < |ts| ==> ts[i].pid == item.pid
  {
    [ImageTask(item, base, hostDraw)] + if HasVideo(item) then [VideoTask(item, base)] else []
  }

  /** The base file name of an entry once its date is resolved: it opens
    * with the entry's mid and closes with its pid, each cut off by a
    * separator, and it parses back into its four parts whenever the first
    * three are free of separators. */
  function EntryBaseName(item: RawItem, tl: Timeline): (base: string)
    ensures |base| == |MidOf(item)| + |tl.year| + |tl.month| + |item.pid| + 3
    ensures base[..|MidOf(item)| + 1] == MidOf(item) + [Naming.Separator]
    ensures base[|base| - |item.pid| - 1..] == [Naming.Separator] + item.pid
    ensures Naming.Separator !in MidOf(item) && Naming.Separator !in tl.year && Naming.Separator !in tl.month ==>
              Naming.ParseBaseFileName(base) == Some(Naming.BaseName(MidOf(item), tl.year, tl.month, item.pid))
  {
    Naming.BaseFileNameShape(MidOf(item), tl.year, tl.month, item.pid);
    Naming.BuildBaseFileName(MidOf(item), tl.year, tl.month, item.pid)
  }

  /** An entry's date resolved against the producer's cursor: the producer
      with the cursor and probe count advanced, and the entry's base name
      `{mid}_{year}_{month}_{pid}`. */
  function ResolveItem(p: Producer, item: RawItem, o: ItemOracle): (r: (Producer, string))
    ensures r.0 == p.(cursor := r.0.cursor, probes := r.0.probes)
    ensures !p.cursor.probeActive ==> !r.0.cursor.probeActive && r.0.probes == p.probes
    ensures Trim(item.timelineYear) != [] && Trim(item.timelineMonth) != [] ==>
              !r.0.cursor.probeActive && r.0.probes == p.probes
    ensures r.0.probes == p.probes + 1 <==>
              p.cursor.probeActive && (Trim(item.timelineYear) == [] || Trim(item.timelineMonth) == [])
    ensures r.0.probes == p.probes || r.0.probes == p.probes + 1
    ensures var tl := ResolveTimeline(p.cursor, item, MidOf(item), o.createdAt);
            r.0.cursor == tl.cursor
            && r.1 == Naming.BuildBaseFileName(MidOf(item), tl.year, tl.month, item.pid)
  {
    var tl := ResolveTimeline(p.cursor, item, MidOf(item), o.createdAt);
    (p.(cursor := tl.cursor, probes := p.probes + if tl.probed then 1 else 0), EntryBaseName(item, tl))
  }

  /** One pass of the `enqueueFromList` loop: a stopped producer or an entry
      without a photo id changes nothing; otherwise the entry's date is
      resolved and its tasks pushed. */
  function EnqueueItem(p: Producer, item: RawItem, o: ItemOracle): (r: Producer)
    ensures ProducerInv(p) ==> ProducerInv(r)
    ensures |p.queue| <= |r.queue| <= |p.queue| + 2 && r.queue[..|p.queue|] == p.queue
    ensures r.discovered - p.discovered == |r.queue| - |p.queue|
    ensures p.seen <= r.seen
    ensures forall i :: |p.queue| <= i < |r.queue| ==> r.queue[i].id !in p.seen && r.queue[i].pid == item.pid
    ensures r.stopped == p.stopped
    ensures p.stopped || item.pid == [] ==> r == p
    ensures !p.stopped ==> Enqueued(p, EntryListing(p.cursor, item, o), r)
    ensures !p.cursor.probeActive ==> !r.cursor.probeActive && r.probes == p.probes
  {
    if p.stopped || item.pid == [] then p
    else
      var (p1, base) := ResolveItem(p, item, o);
      PushAllNew(p1, ItemTasks(item, base, o.hostDraw));
      PushAll(p1, ItemTasks(item, base, o.hostDraw))
  }

  /** What listing entries stand for: their tasks in order, the date
      cursor afterwards and the number of probes made. */
  datatype Listing = Listing(tasks: seq<Task>, cursor: TimelineCursor, probes: nat)

  /** What one entry stands for, its date resolved against the cursor `c`:
      nothing at all without a photo id, and otherwise its tasks named
      `{mid}_{year}_{month}_{pid}`. */
  function EntryListing(c: TimelineCursor, item: RawItem, o: ItemOracle): (l: Listing)
    ensures item.pid == [] ==> l == Listing([], c, 0)
    ensures item.pid != [] ==>
              var tl := ResolveTimeline(c, item, MidOf(item), o.createdAt);
              l.tasks == ItemTasks(item, Naming.BuildBaseFileName(MidOf(item), tl.year, tl.month, item.pid), o.hostDraw)
              && l.cursor == tl.cursor && (l.probes == 1 <==> tl.probed) && l.probes <= 1
  {
    if item.pid == [] then Listing([], c, 0)
    else
      var tl := ResolveTimeline(c, item, MidOf(item), o.createdAt);
      Listing(ItemTasks(item, Naming.BuildBaseFileName(MidOf(item), tl.year, tl.month, item.pid), o.hostDraw), tl.cursor,
              if tl.probed then 1 else 0)
  }

  /** What the entries of one listing stand for, each date resolved against
      the cursor the entries before it left. */
  function ListTasks(c: TimelineCursor, items: seq<RawItem>, oracles: seq<ItemOracle>): (l: Listing)
    requires |oracles| == |items|
    ensures l.probes <= |items|
    ensures forall i :: 0 <= i < |items| ==> items[i].pid != [] ==> ImageTaskId(items[i].pid) in Ids(l.tasks)
    decreases |items|
  {
    if items == [] then Listing([], c, 0)
    else
      var e := EntryListing(c, items[0], oracles[0]);
      var rest := ListTasks(e.cursor, items[1..], oracles[1..]);
      IdsAppend(e.tasks, rest.tasks);
      assert forall i :: 1 <= i < |items| ==> items[i] == items[1..][i - 1];
      Listing(e.tasks + rest.tasks, rest.cursor, e.probes + rest.probes)
  }

  /** Everything the producer keeps apart from the de-duplicated queue:
      `r` is `p` after the listing `l` was pushed. */
  predicate Enqueued(p: Producer, l: Listing, r: Producer) {
    r.queue == p.queue + Dedup(p.seen, l.tasks) && r.seen == p.seen + Ids(l.tasks)
    && r.cursor == l.cursor && r.probes == p.probes + l.probes && r.stopped == p.stopped
  }

  /** Pushing two listings one after the other is pushing their
      concatenation. */
  lemma EnqueuedTwice(p: Producer, l1: Listing, q: Producer, l2: Listing, r: Producer)
    requires Enqueued(p, l1, q) && Enqueued(q, l2, r)
    ensures Enqueued(p, Listing(l1.tasks + l2.tasks, l2.cursor, l1.probes + l2.probes), r)
  {
    QueueTwice(p.queue, p.seen, l1.tasks, q.queue, q.seen, l2.tasks, r.queue);
    SeenTwice(p.seen, l1.tasks, q.seen, l2.tasks, r.seen);
  }

  lemma QueueTwice(q0: seq<Task>, s0: set<string>, t1: seq<Task>, q1: seq<Task>, s1: set<string>,
                   t2: seq<Task>, q2: seq<Task>)
    requires q1 == q0 + Dedup(s0, t1) && s1 == s0 + Ids(t1) && q2 == q1 + Dedup(s1, t2)
    ensures q2 == q0 + Dedup(s0, t1 + t2)
  {
    DedupAppend(s0, t1, t2);
  }

  lemma SeenTwice(s0: set<string>, t1: seq<Task>, s1: set<string>, t2: seq<Task>, s2: set<string>)
    requires s1 == s0 + Ids(t1) && s2 == s1 + Ids(t2)
    ensures s2 == s0 + Ids(t1 + t2)
  {
    IdsAppend(t1, t2);
  }

  /** `enqueueFromList`: the entries in listing order, each with its oracle.
      Unless the producer is stopped, the queue grows by the listing's tasks,
      de-duplicated against what was seen, and every one of their identities
      becomes seen. */
  function EnqueueFromList(p: Producer, items: seq<RawItem>, oracles: seq<ItemOracle>): (r: Producer)
    requires |oracles| == |items|
    ensures ProducerInv(p) ==> ProducerInv(r)
    ensures |p.queue| <= |r.queue| && r.queue[..|p.queue|] == p.queue
    ensures r.discovered - p.discovered == |r.queue| - |p.queue|
    ensures p.seen <= r.seen
    ensures r.stopped == p.stopped
    ensures p.stopped ==> r == p
    ensures !p.stopped ==> Enqueued(p, ListTasks(p.cursor, items, oracles), r)
    ensures !p.cursor.probeActive ==> !r.cursor.probeActive && r.probes == p.probes
    decreases |items|
  {
    if items == [] then
      assert Dedup(p.seen, []) == [];
      p
    else
      var p1 := EnqueueItem(p, items[0], oracles[0]);
      var r := EnqueueFromList(p1, items[1..], oracles[1..]);
      assert r.queue[..|p.queue|] == r.queue[..|p1.queue|][..|p.queue|];
      if p.stopped then r
      else
        EnqueuedTwice(p, EntryListing(p.cursor, items[0], oracles[0]), p1,
                      ListTasks(p1.cursor, items[1..], oracles[1..]), r);
        r
  }

  /** Entries without a photo id add nothing at all. */
  lemma {:induction false} EntriesWithoutPidIgnored(p: Producer, items: seq<RawItem>, oracles: seq<ItemOracle>)
    requires ProducerInv(p) && |oracles| == |items|
    requires forall i :: 0 <= i < |items| ==> items[i].pid == []
    ensures EnqueueFromList(p, items, oracles) == p
    decreases |items|
  {
    if items != [] {
      EntriesWithoutPidIgnored(p, items[1..], oracles[1..]);
    }
  }

  /** Once an explicit year and month have been seen, no entry probes again. */
  lemma {:induction false} NoProbeAfterExplicitDate(p: Producer, item: RawItem, o: ItemOracle,
                                                    items: seq<RawItem>, oracles: seq<ItemOracle>)
    requires ProducerInv(p) && |oracles| == |items|
    requires !p.stopped && item.pid != []
    requires Trim(item.timelineYear) != [] && Trim(item.timelineMonth) != []
    ensures var r := EnqueueFromList(p, [item] + items, [o] + oracles);
            !r.cursor.probeActive && r.probes == p.probes
  {
    var p1 := EnqueueItem(p, item, o);
    assert !p1.cursor.probeActive && p1.probes == p.probes;
    assert ([item] + items)[1..] == items && ([o] + oracles)[1..] == oracles;
  }

  /** Tasks with distinct identities, none seen before, are all appended in
      order. */
  lemma {:induction false} PushAllFresh(p: Producer, ts: seq<Task>)
    requires forall i :: 0 <= i < |ts| ==> ts[i].id !in p.seen
    requires forall i, j :: 0 <= i < j < |ts| ==> ts[i].id != ts[j].id
    ensures PushAll(p, ts).queue == p.queue + ts
    decreases |ts|
  {
    if ts != [] {
      var p1 := Push(p, ts[0]);
      var rest := ts[1..];
      assert p1.queue == p.queue + [ts[0]] && p1.seen == p.seen + {ts[0].id};
      forall i | 0 <= i < |rest|
        ensures rest[i].id !in p1.seen
      {
        assert rest[i] == ts[i + 1];
      }
      PushAllFresh(p1, rest);
      AppendFirst(p.queue, ts);
    }
  }

  lemma AppendFirst<T>(a: seq<T>, s: seq<T>)
    requires s != []
    ensures a + s == (a + [s[0]]) + s[1..]
  {
  }

  /** An entry whose photo (and video) this run has not seen appends its
      image task and then, for a live photo, its video task. */
  lemma EnqueueItemFresh(p: Producer, item: RawItem, o: ItemOracle)
    requires !p.stopped && item.pid != []
    requires ImageTaskId(item.pid) !in p.seen
    requires HasVideo(item) ==> VideoTaskId(item.pid, item.video) !in p.seen
    ensures var r := EnqueueItem(p, item, o);
            |r.queue| == |p.queue| + (if HasVideo(item) then 2 else 1)
            && r.queue[|p.queue|].kind == Image && r.queue[|p.queue|].id == ImageTaskId(item.pid)
            && (HasVideo(item) ==>
                  r.queue[|p.queue| + 1].kind == Video
                  && r.queue[|p.queue| + 1].id == VideoTaskId(item.pid, item.video))
  {
    var (p1, base) := ResolveItem(p, item, o);
    ItemTasksFresh(p1, item, base, o.hostDraw);
  }

  lemma ItemTasksFresh(p: Producer, item: RawItem, base: string, hostDraw: nat)
    requires ImageTaskId(item.pid) !in p.seen
    requires HasVideo(item) ==> VideoTaskId(item.pid, item.video) !in p.seen
    ensures PushAll(p, ItemTasks(item, base, hostDraw)).queue == p.queue + ItemTasks(item, base, hostDraw)
  {
    ImageAndVideoIdsDiffer(item.pid, item.pid, item.video);
    PushAllFresh(p, ItemTasks(item, base, hostDraw));
  }

  /** Two entries for the same photo enqueue its image once: the second entry
      finds the identity already seen. */
  lemma DuplicatePhotoEnqueuedOnce(a: RawItem, b: RawItem, oa: ItemOracle, ob: ItemOracle)
    requires a.pid != [] && a.pid == b.pid
    ensures var r := EnqueueItem(EnqueueItem(InitialProducer, a, oa), b, ob);
            |r.queue| >= 1 && r.queue[0].id == ImageTaskId(a.pid)
            && forall i :: 1 <= i < |r.queue| ==> r.queue[i].id != ImageTaskId(a.pid)
  {
    FirstEntryOpens(a, oa);
    HeadStaysUnique(EnqueueItem(InitialProducer, a, oa), b, ob);
  }

  /** The first entry of a run opens the queue with its image task. */
  lemma FirstEntryOpens(item: RawItem, o: ItemOracle)
    requires item.pid != []
    ensures var p1 := EnqueueItem(InitialProducer, item, o);
            ProducerInv(p1) && |p1.queue| >= 1 && p1.queue[0].id == ImageTaskId(item.pid)
  {
    var p0 := InitialProducer;
    assert ProducerInv(p0) && |p0.queue| == 0 && p0.seen == {} && !p0.stopped;
    EnqueueItemFresh(p0, item, o);
  }

  /** Under the invariant, the task at the head of the queue keeps its place
      and no later entry enqueues its identity again. */
  lemma HeadStaysUnique(p: Producer, item: RawItem, o: ItemOracle)
    requires ProducerInv(p) && |p.queue| >= 1
    ensures var r := EnqueueItem(p, item, o);
            |r.queue| >= 1 && r.queue[0] == p.queue[0]
            && forall i :: 1 <= i < |r.queue| ==> r.queue[i].id != p.queue[0].id
  {
    var r := EnqueueItem(p, item, o);
    assert r.queue[0] == r.queue[..|p.queue|][0];
  }

  /** A live photo in a fresh run gives two tasks, the image first and then
      its video. */
  lemma LivePhotoYieldsTwoTasks(item: RawItem, o: ItemOracle)
    requires item.pid != [] && HasVideo(item)
    ensures var r := EnqueueItem(InitialProducer, item, o);
            |r.queue| == 2 && r.discovered == 2
            && r.queue[0].kind == Image && r.queue[0].id == ImageTaskId(item.pid)
            && r.queue[1].kind == Video && r.queue[1].id == VideoTaskId(item.pid, item.video)
  {
    EnqueueItemFresh(InitialProducer, item, o);
  }

  /** `stop()` seen from the producer: the stop flag is raised and the queue
      emptied. */
  function StopProducer(p: Producer): (r: Producer)
    ensures r.stopped && r.queue == [] && ProducerInv(r)
    ensures r.seen == p.seen && r.discovered == p.discovered
  {
    p.(stopped := true, queue := [])
  }

  /** After a stop, later entries enqueue nothing. */
  lemma StopEnqueuesNothing(p: Producer, items: seq<RawItem>, oracles: seq<ItemOracle>)
    requires |oracles| == |items|
    ensures EnqueueFromList(StopProducer(p), items, oracles).queue == []
  {
  }

  /** One listing page: its entries (with their oracles) and `since_id`. */
  datatype ListingPage = ListingPage(items: seq<RawItem>, oracles: seq<ItemOracle>, sinceId: Option<string>)

  datatype FetchResult = FetchFailed | Fetched(page: ListingPage)

  /** Why production ended.  `ResponsesExhausted` is the model's bound: the
      run asked for more pages than the supplied answers. */
  datatype ProduceEnd = NoMorePages | FetchError | StoppedEarly | ResponsesExhausted

  predicate WellFormedResponses(responses: seq<FetchResult>) {
    forall k :: 0 <= k < |responses| && responses[k].Fetched? ==>
      |responses[k].page.oracles| == |responses[k].page.items|
  }

  /** `String(body.since_id ?? '0')`. */
  function NextCursor(page: ListingPage): (next: string)
    ensures page.sinceId.None? ==> next == FirstCursor
    ensures page.sinceId.Some? ==> next == page.sinceId.value
  {
    page.sinceId.GetOr(FirstCursor)
  }

  function IsLastPage(page: ListingPage): (last: bool)
    ensures last <==> page.sinceId.None? || page.sinceId.value in {[], FirstCursor}
  {
    NextCursor(page) == [] || NextCursor(page) == FirstCursor
  }

  /** What the answers to the first `n` requests stand for, in order: the
      listings of the answered pages, each resolved against the cursor the
      pages before it left. */
  function ListPages(c: TimelineCursor, responses: seq<FetchResult>, n: nat): (l: Listing)
    requires WellFormedResponses(responses)
    requires n <= |responses|
    decreases n
  {
    if n == 0 then Listing([], c, 0)
    else
      var l := ListPages(c, responses, n - 1);
      match responses[n - 1]
      case FetchFailed => l
      case Fetched(page) =>
        var m := ListTasks(l.cursor, page.items, page.oracles);
        Listing(l.tasks + m.tasks, m.cursor, l.probes + m.probes)
  }

  /** The entries of one answer; a failed request adds nothing. */
  function EnqueueAnswer(p: Producer, answer: FetchResult): (r: Producer)
    requires answer.Fetched? ==> |answer.page.oracles| == |answer.page.items|
    ensures ProducerInv(p) ==> ProducerInv(r)
    ensures |p.queue| <= |r.queue| && r.queue[..|p.queue|] == p.queue
    ensures r.discovered - p.discovered == |r.queue| - |p.queue|
    ensures answer.FetchFailed? || p.stopped ==> r == p
    ensures answer.Fetched? && !p.stopped ==>
              Enqueued(p, ListTasks(p.cursor, answer.page.items, answer.page.oracles), r)
  {
    match answer
    case FetchFailed => p
    case Fetched(page) => EnqueueFromList(p, page.items, page.oracles)
  }

  /** The producer after enqueuing the first `n` answered pages in order:
      unless it was stopped, the queue grows by the tasks those pages stand
      for, de-duplicated against what was seen. */
  function EnqueuePages(p: Producer, responses: seq<FetchResult>, n: nat): (r: Producer)
    requires WellFormedResponses(responses)
    requires n <= |responses|
    ensures ProducerInv(p) ==> ProducerInv(r)
    ensures |p.queue| <= |r.queue| && r.queue[..|p.queue|] == p.queue
    ensures r.discovered - p.discovered == |r.queue| - |p.queue|
    ensures p.stopped ==> r == p
    ensures !p.stopped ==> Enqueued(p, ListPages(p.cursor, responses, n), r)
    decreases n
  {
    if n == 0 then
      assert Dedup(p.seen, []) == [];
      p
    else
      var q := EnqueuePages(p, responses, n - 1);
      var r := EnqueueAnswer(q, responses[n - 1]);
      assert r.queue[..|p.queue|] == r.queue[..|q.queue|][..|p.queue|];
      if p.stopped || responses[n - 1].FetchFailed? then r
      else
        var page := responses[n - 1].page;
        EnqueuedTwice(p, ListPages(p.cursor, responses, n - 1), q,
                      ListTasks(q.cursor, page.items, page.oracles), r);
        r
  }

  /** The cursor the k-th request asks for: "0" first, then the previous
      page's `since_id`. */
  function CursorAt(responses: seq<FetchResult>, k: nat): string
    requires k <= |responses|
  {
    if k == 0 || responses[k - 1].FetchFailed? then FirstCursor else NextCursor(responses[k - 1].page)
  }

  /** The k-th request is made only after a page that was not the last. */
  predicate Continues(responses: seq<FetchResult>, k: nat)
    requires k <= |responses|
  {
    k == 0 || (responses[k - 1].Fetched? && !IsLastPage(responses[k - 1].page))
  }

  /** The cursors asked for so far: "0" first, then each answered page's
      `since_id`, for as long as that page was not the last. */
  predicate CursorChain(requested: seq<string>, responses: seq<FetchResult>) {
    |requested| <= |responses|
    && forall k :: 0 <= k < |requested| ==> Continues(responses, k) && requested[k] == CursorAt(responses, k)
  }

  lemma ChainExtend(requested: seq<string>, responses: seq<FetchResult>)
    requires CursorChain(requested, responses) && |requested| < |responses|
    requires Continues(responses, |requested|)
    ensures CursorChain(requested + [CursorAt(responses, |requested|)], responses)
  {
    var r := requested + [CursorAt(responses, |requested|)];
    forall k | 0 <= k < |r|
      ensures Continues(responses, k) && r[k] == CursorAt(responses, k)
    {
      if k < |requested| {
        assert r[k] == requested[k];
      }
    }
  }

  /** How the reason production ended matches the answers received. */
  predicate EndMatches(end: ProduceEnd, requested: seq<string>, responses: seq<FetchResult>)
    requires |requested| <= |responses|
  {
    (end == NoMorePages ==>
       requested != [] && responses[|requested| - 1].Fetched? && IsLastPage(responses[|requested| - 1].page))
    && (end == FetchError ==> requested != [] && responses[|requested| - 1].FetchFailed?)
    && (end == ResponsesExhausted ==> |requested| == |responses|)
  }

  /** `produceMediaList`: requests pages from cursor "0", following each
      page's `since_id` until it is empty or "0", a request fails, or a stop
      was requested, and enqueues each answered page's entries in order.
      `responses[k]` answers the k-th request; `requested` lists the cursors
      asked for.  Which pages are requested does not depend on what their
      entries enqueue, so the entries of the pages answered are folded in
      once the cursor chain is known, in the order they arrived. */
  method ProduceMediaList(p0: Producer, responses: seq<FetchResult>)
    returns (p: Producer, requested: seq<string>, end: ProduceEnd)
    requires WellFormedResponses(responses)
    ensures CursorChain(requested, responses)
    ensures p == EnqueuePages(p0, responses, |requested|)
    ensures end == StoppedEarly <==> p0.stopped
    ensures end == StoppedEarly ==> requested == [] && p == p0
    ensures EndMatches(end, requested, responses)
  {
    requested := [];
    end := StoppedEarly;
    if !p0.stopped {
      var done := false;
      end := ResponsesExhausted;
      while !done
        invariant CursorChain(requested, responses)
        invariant end != StoppedEarly
        invariant done ==> EndMatches(end, requested, responses)
        invariant !done ==> Continues(responses, |requested|)
        decreases |responses| - |requested|, !done
      {
        var k := |requested|;
        if k == |responses| {
          end := ResponsesExhausted;
          done := true;
        } else {
          ChainExtend(requested, responses);
          requested := requested + [CursorAt(responses, k)];
          var answer := responses[k];
          if answer.FetchFailed? {
            end := FetchError;
            done := true;
          } else {
            if IsLastPage(answer.page) {
              end := NoMorePages;
              done := true;
            }
          }
        }
      }
    }
    p := EnqueuePages(p0, responses, |requested|);
  }
}
