/** Which page the downloader is on: the account id from a path of the form
    `/u/<digits>` (optionally with one trailing slash) and the `tabtype` query
    parameter.  URL parsing itself is outside the model; the path and the
    parameter arrive already separated. */
module PageInfo {
  import opened Text

  const UserPathPrefix: string := "/u/"
  const AlbumTab: string := "album"

  datatype Page = Page(uid: string, tabtype: string)

  /** `parsePageInfo`: `^\/u\/(\d+)\/?$` on the path; a missing `tabtype`
      parameter reads as the empty text. */
  function ParsePageInfo(path: string, tabtype: Option<string>): (r: Option<Page>)
    ensures r.Some? ==> r.value.uid != [] && AllDigits(r.value.uid)
    ensures r.Some? ==> path == UserPathPrefix + r.value.uid || path == UserPathPrefix + r.value.uid + "/"
    ensures r.Some? ==> r.value.tabtype == tabtype.GetOr("")
  {
    if |path| < |UserPathPrefix| || path[..|UserPathPrefix|] != UserPathPrefix then None
    else
      var rest := path[|UserPathPrefix|..];
      var uid := if rest != [] && rest[|rest| - 1] == '/' then rest[..|rest| - 1] else rest;
      if uid == [] || !AllDigits(uid) then None
      else
        assert rest == uid || rest == uid + "/";
        assert path == path[..|UserPathPrefix|] + rest;
        Some(Page(uid, tabtype.GetOr("")))
  }

  /** Every account path is recognised, with or without the trailing slash. */
  lemma {:induction false} ParsePageInfoOfUserPath(uid: string, slash: bool, tabtype: Option<string>)
    requires uid != [] && AllDigits(uid)
    ensures ParsePageInfo(UserPathPrefix + uid + (if slash then "/" else ""), tabtype)
            == Some(Page(uid, tabtype.GetOr("")))
  {
    var path := UserPathPrefix + uid + (if slash then "/" else "");
    assert path[..|UserPathPrefix|] == UserPathPrefix;
    var rest := path[|UserPathPrefix|..];
    assert rest == uid + (if slash then "/" else "");
    if !slash {
      assert path == UserPathPrefix + uid;
      assert rest == uid;
      assert rest[|rest| - 1] != '/' by { assert IsDigit(uid[|uid| - 1]); }
    } else {
      assert rest[..|rest| - 1] == uid;
    }
  }

  /** `isAlbumPage`. */
  predicate IsAlbumPage(info: Option<Page>) {
    info.Some? && info.value.uid != [] && info.value.tabtype == AlbumTab
  }

  /** An account page is an album page exactly when its tab parameter is
      "album". */
  lemma AlbumPageIff(path: string, tabtype: Option<string>)
    ensures IsAlbumPage(ParsePageInfo(path, tabtype))
            <==> ParsePageInfo(path, tabtype).Some? && tabtype == Some(AlbumTab)
  {
  }
}
