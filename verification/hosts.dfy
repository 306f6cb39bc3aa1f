/** The image mirrors `wx1`, `wx2` and `wx3.sinaimg.cn` and the order in which
    a download tries them.  URL parsing is outside the model: the host name of
    a task's URL arrives as `Some(host)`, or `None` when the URL does not
    parse. */
module Hosts {
  import opened Text
  import opened Tasks
  import Settings

  /** Mirror numbers. */
  type HostNo = n: int | 1 <= n <= 3 witness 1

  const HostSuffix: string := ".sinaimg.cn"

  function HostDigit(n: HostNo): (c: char)
    ensures '1' <= c <= '3' && c as int - '0' as int == n
  {
    ('0' as int + n) as char
  }

  /** `wx<n>.sinaimg.cn`. */
  function WxHost(n: HostNo): (h: string)
    ensures |h| == 14 && h[2] == HostDigit(n)
  {
    "wx" + [HostDigit(n)] + HostSuffix
  }

  /** `buildImageUrlWithHost`: the full-size image URL on mirror `n`. */
  function BuildImageUrlWithHost(pid: string, n: HostNo): (url: string)
    ensures |url| == 33 + |pid| && url[..8] == "https://" && url[8..22] == WxHost(n)
    ensures url[22..] == "/large/" + pid + ".jpg"
  {
    "https://" + WxHost(n) + "/large/" + pid + ".jpg"
  }

  /** `buildImageUrl` with `pickWxHost`: the mirror is `randomInt(1, 3)`, its
      random draw given as `draw`. */
  function BuildImageUrl(pid: string, draw: nat): (url: string)
    ensures exists n: HostNo :: url == BuildImageUrlWithHost(pid, n)
  {
    var n := Settings.RandomInt(1, 3, draw);
    BuildImageUrlWithHost(pid, n)
  }

  /** URLs on different mirrors differ (in the digit after "https://wx"). */
  lemma ImageUrlInjective(pid: string, m: HostNo, n: HostNo)
    ensures BuildImageUrlWithHost(pid, m) == BuildImageUrlWithHost(pid, n) <==> m == n
  {
    if BuildImageUrlWithHost(pid, m) == BuildImageUrlWithHost(pid, n) {
      assert BuildImageUrlWithHost(pid, m)[10] == HostDigit(m);
      assert BuildImageUrlWithHost(pid, n)[10] == HostDigit(n);
    }
  }

  /** `extractWxHostNo`: the mirror number when the host name matches
      `^wx([1-3])\.sinaimg\.cn$` ignoring ASCII case, and 0 otherwise. */
  function ExtractWxHostNo(hostname: Option<string>): (n: int)
    ensures 0 <= n <= 3
    ensures n != 0 ==> hostname.Some? && Lower(hostname.value) == WxHost(n)
  {
    match hostname
    case None => 0
    case Some(h) =>
      if |h| == 14 && Lower(h[..2]) == "wx" && '1' <= h[2] <= '3' && Lower(h[3..]) == HostSuffix then
        var n: HostNo := h[2] as int - '0' as int;
        LowerMirrorHost(h, n);
        n
      else 0
  }

  /** A host name whose parts lower-case to those of a mirror's host name
      lower-cases to that host name. */
  lemma LowerMirrorHost(h: string, n: HostNo)
    requires |h| == 14 && Lower(h[..2]) == "wx" && h[2] == HostDigit(n) && Lower(h[3..]) == HostSuffix
    ensures Lower(h) == WxHost(n)
  {
    var w := WxHost(n);
    forall i | 0 <= i < 14
      ensures Lower(h)[i] == w[i]
    {
      if i < 2 {
        assert Lower(h[..2])[i] == LowerChar(h[i]);
      } else if i > 2 {
        assert Lower(h[3..])[i - 3] == LowerChar(h[i]);
        assert w[i] == HostSuffix[i - 3];
      }
    }
  }

  /** The host name of a mirror gives back its number. */
  lemma ExtractWxHostNoOfMirror(n: HostNo)
    ensures ExtractWxHostNo(Some(WxHost(n))) == n
  {
    var h := WxHost(n);
    assert h[..2] == "wx" && h[3..] == HostSuffix;
    LowerKeepsLowercase("wx");
    LowerKeepsLowercase(HostSuffix);
  }

  /** Lower-casing a text without capital letters leaves it unchanged. */
  lemma LowerKeepsLowercase(s: string)
    requires forall i :: 0 <= i < |s| ==> !('A' <= s[i] <= 'Z')
    ensures Lower(s) == s
  {
  }

  /** The mirror numbers in the order they are tried: the preferred one first
      when it is a mirror number, the others after it in ascending order. */
  function HostOrder(preferred: int): (o: seq<HostNo>)
    ensures |o| == 3 && o[1] < o[2]
    ensures 1 <= preferred <= 3 ==> o[0] == preferred
    ensures !(1 <= preferred <= 3) ==> o == [1, 2, 3]
    ensures o[0] != o[1] && o[0] != o[2]
  {
    if preferred == 2 then [2, 1, 3]
    else if preferred == 3 then [3, 1, 2]
    else [1, 2, 3]
  }

  /** `getDownloadCandidates`: for an image with a photo id, the URL on every
      mirror, each once, starting with the mirror the task's URL names; for
      anything else, the task's own URL alone. */
  function GetDownloadCandidates(task: Task, hostname: Option<string>): (c: seq<string>)
    ensures task.kind != Image || task.pid == [] ==> c == [task.url]
    ensures task.kind == Image && task.pid != [] ==>
              |c| == 3
              && (forall n: HostNo :: BuildImageUrlWithHost(task.pid, n) in c)
              && (forall i, j :: 0 <= i < j < |c| ==> c[i] != c[j])
              && (forall i :: 0 <= i < |c| ==> exists n: HostNo :: c[i] == BuildImageUrlWithHost(task.pid, n))
    ensures task.kind == Image && task.pid != [] ==>
              var p := ExtractWxHostNo(hostname);
              (p != 0 ==> c[0] == BuildImageUrlWithHost(task.pid, p))
              && (p == 0 ==> c == [BuildImageUrlWithHost(task.pid, 1), BuildImageUrlWithHost(task.pid, 2),
                                   BuildImageUrlWithHost(task.pid, 3)])
    ensures task.kind == Image && task.pid != [] ==>
              var p := ExtractWxHostNo(hostname);
              (p == 1 ==> c[1] == BuildImageUrlWithHost(task.pid, 2) && c[2] == BuildImageUrlWithHost(task.pid, 3))
              && (p == 2 ==> c[1] == BuildImageUrlWithHost(task.pid, 1) && c[2] == BuildImageUrlWithHost(task.pid, 3))
              && (p == 3 ==> c[1] == BuildImageUrlWithHost(task.pid, 1) && c[2] == BuildImageUrlWithHost(task.pid, 2))
  {
    if task.kind == Image && task.pid != [] then
      var o := HostOrder(ExtractWxHostNo(hostname));
      MirrorUrlsDistinct(task.pid, o);
      [BuildImageUrlWithHost(task.pid, o[0]), BuildImageUrlWithHost(task.pid, o[1]),
       BuildImageUrlWithHost(task.pid, o[2])]
    else [task.url]
  }

  /** The URLs of a photo on the mirrors of an order cover every mirror, each
      once. */
  lemma MirrorUrlsDistinct(pid: string, o: seq<HostNo>)
    requires |o| == 3 && o[0] != o[1] && o[0] != o[2] && o[1] < o[2]
    ensures var c := [BuildImageUrlWithHost(pid, o[0]), BuildImageUrlWithHost(pid, o[1]),
                      BuildImageUrlWithHost(pid, o[2])];
            (forall n: HostNo :: BuildImageUrlWithHost(pid, n) in c)
            && (forall i, j :: 0 <= i < j < |c| ==> c[i] != c[j])
  {
    var c := [BuildImageUrlWithHost(pid, o[0]), BuildImageUrlWithHost(pid, o[1]),
              BuildImageUrlWithHost(pid, o[2])];
    forall i, j | 0 <= i < j < 3
      ensures c[i] != c[j]
    {
      ImageUrlInjective(pid, o[i], o[j]);
    }
    assert forall n: HostNo :: n in o;
  }

  /** A URL the downloader built itself names its mirror first. */
  lemma CandidatesStartAtBuiltMirror(task: Task, n: HostNo)
    requires task.kind == Image && task.pid != []
    ensures GetDownloadCandidates(task, Some(WxHost(n)))[0] == BuildImageUrlWithHost(task.pid, n)
  {
    ExtractWxHostNoOfMirror(n);
  }
}
