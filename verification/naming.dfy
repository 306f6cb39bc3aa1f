/** File and directory names: the `{mid}_{year}_{month}_{pid}` base name,
    removal of path-hostile characters, and the video extension guessed from a
    URL path. */
module Naming {
  import opened Text

  const Separator: char := '_'
  const DefaultFileName: string := "file.bin"
  const DefaultDirName: string := "weibo_user"
  const DefaultVideoExt: string := ".mp4"

  /** The characters `[\\/:*?"<>|]` that are replaced by an underscore. */
  predicate IsHostile(c: char) {
    c == '\\' || c == '/' || c == ':' || c == '*' || c == '?' || c == '"'
    || c == '<' || c == '>' || c == '|'
  }

  predicate NoHostile(s: string) {
    forall i :: 0 <= i < |s| ==> !IsHostile(s[i])
  }

  /** `buildBaseFileName`. */
  function BuildBaseFileName(mid: string, year: string, month: string, pid: string): (r: string)
    ensures |r| == |mid| + |year| + |month| + |pid| + 3
    ensures r[..|mid|] == mid && r[|r| - |pid|..] == pid
  {
    mid + ([Separator] + (year + ([Separator] + (month + ([Separator] + pid)))))
  }

  /** A base file name opens with its mid and closes with its pid, each
    * cut off from the rest by a separator. */
  lemma BaseFileNameEnds(mid: string, year: string, month: string, pid: string)
    ensures var r := BuildBaseFileName(mid, year, month, pid);
            r[..|mid| + 1] == mid + [Separator] && r[|r| - |pid| - 1..] == [Separator] + pid
  {
    var r := BuildBaseFileName(mid, year, month, pid);
    var head := mid + ([Separator] + (year + ([Separator] + month)));
    assert r == (mid + [Separator]) + (year + ([Separator] + (month + ([Separator] + pid))));
    assert r == head + ([Separator] + pid);
  }

  /** The shape of a base file name: its two ends, and the four parts it
    * parses back into when the first three are free of separators. */
  lemma BaseFileNameShape(mid: string, year: string, month: string, pid: string)
    ensures var r := BuildBaseFileName(mid, year, month, pid);
            r[..|mid| + 1] == mid + [Separator] && r[|r| - |pid| - 1..] == [Separator] + pid
    ensures Separator !in mid && Separator !in year && Separator !in month ==>
              ParseBaseFileName(BuildBaseFileName(mid, year, month, pid)) == Some(BaseName(mid, year, month, pid))
  {
    BaseFileNameEnds(mid, year, month, pid);
    if Separator !in mid && Separator !in year && Separator !in month {
      BaseFileNameRoundTrip(mid, year, month, pid);
    }
  }

  /** Index of the first occurrence of `c` in `s`, if any. */
  function IndexOf(s: string, c: char): (r: Option<nat>)
    ensures r.None? <==> c !in s
    ensures r.Some? ==> r.value < |s| && s[r.value] == c && c !in s[..r.value]
  {
    if s == [] then None
    else if s[0] == c then Some(0)
    else match IndexOf(s[1..], c)
      case None => None
      case Some(k) => assert s[..k + 1] == [s[0]] + s[1..][..k]; Some(k + 1)
  }

  datatype BaseName = BaseName(mid: string, year: string, month: string, pid: string)

  /** Cuts a text at its first separator. */
  function SplitAtSeparator(s: string): (r: Option<(string, string)>)
    ensures r.None? <==> Separator !in s
    ensures r.Some? ==> Separator !in r.value.0 && |r.value.0| < |s|
                        && r.value.0 == s[..|r.value.0|] && r.value.1 == s[|r.value.0| + 1..]
  {
    match IndexOf(s, Separator)
    case None => None
    case Some(i) => Some((s[..i], s[i + 1..]))
  }

  /** Reads a base name back by cutting it at its first three separators. */
  function ParseBaseFileName(s: string): Option<BaseName> {
    match SplitAtSeparator(s)
    case None => None
    case Some((mid, rest1)) =>
      match SplitAtSeparator(rest1)
      case None => None
      case Some((year, rest2)) =>
        match SplitAtSeparator(rest2)
        case None => None
        case Some((month, pid)) => Some(BaseName(mid, year, month, pid))
  }

  /** Cutting `a + "_" + b` at its first separator gives back `a` and `b`
      when `a` has no separator. */
  lemma SplitJoin(a: string, b: string)
    requires Separator !in a
    ensures SplitAtSeparator(a + ([Separator] + b)) == Some((a, b))
  {
    var s := a + ([Separator] + b);
    assert s[..|a|] == a;
    assert s[|a|] == Separator;
    assert s[|a| + 1..] == b;
    assert IndexOf(s, Separator) == Some(|a|);
  }

  /** The base name carries its four parts recoverably whenever the post id,
      year and month contain no separator (the media id may contain anything). */
  lemma {:induction false} BaseFileNameRoundTrip(mid: string, year: string, month: string, pid: string)
    requires Separator !in mid && Separator !in year && Separator !in month
    ensures ParseBaseFileName(BuildBaseFileName(mid, year, month, pid)) == Some(BaseName(mid, year, month, pid))
  {
    var rest2 := month + ([Separator] + pid);
    var rest1 := year + ([Separator] + rest2);
    var s := mid + ([Separator] + rest1);
    assert SplitAtSeparator(s) == Some((mid, rest1)) by {
      SplitJoin(mid, rest1);
    }
    assert SplitAtSeparator(rest1) == Some((year, rest2)) by {
      SplitJoin(year, rest2);
    }
    assert SplitAtSeparator(rest2) == Some((month, pid)) by {
      SplitJoin(month, pid);
    }
    ParseOfSplits(s, rest1, rest2, BaseName(mid, year, month, pid));
  }

  lemma ParseOfSplits(s: string, rest1: string, rest2: string, b: BaseName)
    requires SplitAtSeparator(s) == Some((b.mid, rest1))
    requires SplitAtSeparator(rest1) == Some((b.year, rest2))
    requires SplitAtSeparator(rest2) == Some((b.month, b.pid))
    ensures ParseBaseFileName(s) == Some(b)
  {
  }

  /** Replaces every path-hostile character by an underscore, keeping all
      others in place. */
  function ReplaceHostile(s: string): (r: string)
    ensures |r| == |s|
    ensures NoHostile(r)
    ensures forall i :: 0 <= i < |s| && !IsHostile(s[i]) ==> r[i] == s[i]
    ensures forall i :: 0 <= i < |s| && IsHostile(s[i]) ==> r[i] == Separator
  {
    if s == [] then []
    else [if IsHostile(s[0]) then Separator else s[0]] + ReplaceHostile(s[1..])
  }

  /** `sanitizeFileName`: an empty name becomes "file.bin"; otherwise the name
      keeps its length and only hostile characters change. */
  function SanitizeFileName(name: string): (r: string)
    ensures NoHostile(r) && r != []
    ensures name == [] ==> r == DefaultFileName
    ensures name != [] ==> |r| == |name|
    ensures name != [] ==> forall i :: 0 <= i < |name| && !IsHostile(name[i]) ==> r[i] == name[i]
  {
    if name == [] then DefaultFileName else ReplaceHostile(name)
  }

  /** A name that is already clean passes through, so sanitising twice is
      sanitising once. */
  lemma {:induction false} SanitizeFileNameIdempotent(name: string)
    ensures SanitizeFileName(SanitizeFileName(name)) == SanitizeFileName(name)
  {
    var r := SanitizeFileName(name);
    var rr := SanitizeFileName(r);
    assert forall i :: 0 <= i < |r| ==> rr[i] == r[i];
  }

  /** `sanitizeDirName`: hostile characters replaced, surrounding white space
      trimmed, and "weibo_user" when nothing is left. */
  function SanitizeDirName(name: string): (r: string)
    ensures r != [] && NoHostile(r)
    ensures !IsSpace(r[0]) && !IsSpace(r[|r| - 1])
    ensures r == DefaultDirName || r == Trim(ReplaceHostile(name))
    ensures Trim(ReplaceHostile(name)) != [] ==> r == Trim(ReplaceHostile(name))
  {
    var replaced := ReplaceHostile(name);
    var cleaned := Trim(replaced);
    if cleaned == [] then
      DefaultDirNameClean();
      DefaultDirName
    else
      TrimKeepsNoHostile(replaced);
      cleaned
  }

  /** A sanitised directory name is its own sanitisation: it has no hostile
      character to replace and no white space to trim. */
  lemma SanitizeDirNameIdempotent(name: string)
    ensures SanitizeDirName(SanitizeDirName(name)) == SanitizeDirName(name)
  {
    var r := SanitizeDirName(name);
    ReplaceClean(r);
    var cleaned := Trim(ReplaceHostile(name));
    if cleaned != [] {
      TrimIdempotent(ReplaceHostile(name));
    } else {
      TrimClean(r);
    }
  }

  /** Replacing hostile characters in a text without any changes nothing. */
  lemma ReplaceClean(s: string)
    requires NoHostile(s)
    ensures ReplaceHostile(s) == s
  {
    var r := ReplaceHostile(s);
    assert forall i :: 0 <= i < |s| ==> r[i] == s[i];
  }

  lemma TrimKeepsNoHostile(s: string)
    requires NoHostile(s)
    ensures NoHostile(Trim(s))
  {
    var t := Trim(s);
    var off := |s| - |TrimStart(s)|;
    assert t == s[off..off + |t|];
    forall i | 0 <= i < |t|
      ensures !IsHostile(t[i])
    {
      assert t[i] == s[off + i];
    }
  }

  lemma DefaultDirNameClean()
    ensures NoHostile(DefaultDirName)
    ensures !IsSpace(DefaultDirName[0]) && !IsSpace(DefaultDirName[|DefaultDirName| - 1])
  {
    assert DefaultDirName == "weibo_user";
    assert forall i :: 0 <= i < |DefaultDirName| ==> IsWordChar(DefaultDirName[i]);
  }

  /** The account's sub-directory is named after the display name when there
      is one, and after the account id otherwise. */
  function UserDirName(screenName: string, uid: string): (r: string)
    ensures r != [] && NoHostile(r)
    ensures screenName != [] ==> r == SanitizeDirName(screenName)
    ensures screenName == [] ==> r == SanitizeDirName(uid)
  {
    SanitizeDirName(if screenName != [] then screenName else uid)
  }

  /** Length of the longest suffix of `s` made of `[a-z0-9]` (case-insensitive). */
  function TrailingAlnum(s: string): (n: nat)
    ensures n <= |s|
    ensures forall i :: |s| - n <= i < |s| ==> IsAlnum(s[i])
    ensures n < |s| ==> !IsAlnum(s[|s| - n - 1])
  {
    if s == [] || !IsAlnum(s[|s| - 1]) then 0 else TrailingAlnum(s[..|s| - 1]) + 1
  }

  /** `guessVideoExt` on the URL's path (`None` when the URL does not parse):
      a final dot followed by 2 to 5 letters or digits gives that extension in
      lower case; anything else gives ".mp4". */
  function GuessVideoExt(path: Option<string>): (r: string)
    ensures 3 <= |r| <= 6 && r[0] == '.'
    ensures forall i :: 1 <= i < |r| ==> IsLowerAlnum(r[i])
    ensures path.None? ==> r == DefaultVideoExt
    ensures r != DefaultVideoExt ==>
              path.Some? && |path.value| >= |r| && Lower(path.value[|path.value| - |r|..]) == r
  {
    match path
    case None => DefaultVideoExt
    case Some(p) =>
      var n := TrailingAlnum(p);
      if 2 <= n <= 5 && n < |p| && p[|p| - n - 1] == '.' then
        DotExtension(p, n);
        "." + Lower(p[|p| - n..])
      else DefaultVideoExt
  }

  /** The lower-cased dot-extension of the last `n` characters of `p`. */
  lemma DotExtension(p: string, n: nat)
    requires n < |p| && p[|p| - n - 1] == '.'
    requires forall i :: |p| - n <= i < |p| ==> IsAlnum(p[i])
    ensures var r := "." + Lower(p[|p| - n..]);
            |r| == n + 1 && r[0] == '.'
            && (forall i :: 1 <= i < |r| ==> IsLowerAlnum(r[i]))
            && Lower(p[|p| - |r|..]) == r
  {
    var e := p[|p| - n..];
    var r := "." + Lower(e);
    forall i | 1 <= i < |r|
      ensures IsLowerAlnum(r[i])
    {
      assert r[i] == LowerChar(e[i - 1]);
      assert IsAlnum(e[i - 1]) by {
        assert e[i - 1] == p[|p| - n + i - 1];
      }
    }
    assert p[|p| - |r|..] == ['.'] + e;
    assert Lower(['.'] + e) == r by {
      assert Lower(['.'] + e)[0] == '.';
      forall i | 1 <= i < |r|
        ensures Lower(['.'] + e)[i] == r[i]
      {
        assert (['.'] + e)[i] == e[i - 1];
      }
    }
  }

  /** A path ending in a dot and a 2-5 character extension yields that
      extension lower-cased, whatever comes before it. */
  lemma {:induction false} GuessVideoExtOfSuffix(prefix: string, ext: string)
    requires 2 <= |ext| <= 5
    requires forall i :: 0 <= i < |ext| ==> IsAlnum(ext[i])
    ensures GuessVideoExt(Some(prefix + "." + ext)) == "." + Lower(ext)
  {
    var p := prefix + "." + ext;
    TrailingAlnumOfSuffix(prefix + ".", ext);
    assert p[|p| - |ext| - 1] == '.';
    assert p[|p| - |ext|..] == ext;
  }

  lemma {:induction false} TrailingAlnumOfSuffix(prefix: string, ext: string)
    requires prefix != [] && !IsAlnum(prefix[|prefix| - 1])
    requires forall i :: 0 <= i < |ext| ==> IsAlnum(ext[i])
    ensures TrailingAlnum(prefix + ext) == |ext|
    decreases |ext|
  {
    if ext == [] {
      assert prefix + ext == prefix;
    } else {
      var e := ext[..|ext| - 1];
      assert (prefix + ext)[..|prefix + ext| - 1] == prefix + e;
      TrailingAlnumOfSuffix(prefix, e);
    }
  }

  /** A path whose last segment has no dot-extension of 2-5 characters falls
      back to ".mp4": in particular a path without any dot. */
  lemma {:induction false} GuessVideoExtNoDot(p: string)
    requires '.' !in p
    ensures GuessVideoExt(Some(p)) == DefaultVideoExt
  {
    var n := TrailingAlnum(p);
    if 2 <= n <= 5 && n < |p| {
      assert p[|p| - n - 1] in p;
    }
  }
}
