/** Reading a year and month out of a post's `created_at` text, such as
    "Sat Oct 12 10:00:00 +0800 2020".  The pattern the downloader uses,
    `^\w+\s+(\w+)\s+\d+\s+\d+:\d+:\d+\s+[+-]\d+\s+(\d{4})$`, places every
    repetition next to a disjoint character class, so it has at most one
    match, and that match takes each run of a class as far as it goes.  The
    matcher below therefore reads maximal runs from left to right. */
module CreatedAt {
  import opened Text

  datatype CharClass = Word | Space | Digit

  predicate InClass(c: char, cls: CharClass) {
    match cls
    case Word => IsWordChar(c)
    case Space => IsSpace(c)
    case Digit => IsDigit(c)
  }

  predicate AllIn(s: string, cls: CharClass) {
    forall i :: 0 <= i < |s| ==> InClass(s[i], cls)
  }

  /** Splits `s` into its longest prefix in the class and the rest. */
  function Span(s: string, cls: CharClass): (r: (string, string))
    ensures r.0 + r.1 == s
    ensures AllIn(r.0, cls)
    ensures r.1 == [] || !InClass(r.1[0], cls)
  {
    if s != [] && InClass(s[0], cls) then
      var rest := Span(s[1..], cls);
      ([s[0]] + rest.0, rest.1)
    else ([], s)
  }

  /** A run of the class followed by something outside it is read whole. */
  lemma {:induction false} SpanOfRun(a: string, b: string, cls: CharClass)
    requires AllIn(a, cls)
    requires b == [] || !InClass(b[0], cls)
    ensures Span(a + b, cls) == (a, b)
    decreases |a|
  {
    if a == [] {
      assert a + b == b;
    } else {
      assert (a + b)[0] == a[0];
      assert (a + b)[1..] == a[1..] + b;
      SpanOfRun(a[1..], b, cls);
      assert [a[0]] + a[1..] == a;
    }
  }

  predicate Run(s: string, cls: CharClass) {
    s != [] && AllIn(s, cls)
  }

  /** A creation time cut into the pieces the pattern reads: the day of the
      week, the month name, the day, the clock time, the signed zone offset
      and the year, with the runs of white space between them. */
  datatype CreatedAtText = CreatedAtText(
    dow: string, sp1: string, mon: string, sp2: string, day: string, sp3: string,
    hh: string, mm: string, ss: string, sp4: string, sign: char, tz: string, sp5: string,
    year: string)

  /** The shape `^\w+\s+(\w+)\s+\d+\s+\d+:\d+:\d+\s+[+-]\d+\s+(\d{4})$` asks for. */
  predicate WellFormed(t: CreatedAtText) {
    Run(t.dow, Word) && Run(t.sp1, Space) && Run(t.mon, Word) && Run(t.sp2, Space)
    && Run(t.day, Digit) && Run(t.sp3, Space)
    && Run(t.hh, Digit) && Run(t.mm, Digit) && Run(t.ss, Digit)
    && Run(t.sp4, Space) && (t.sign == '+' || t.sign == '-') && Run(t.tz, Digit) && Run(t.sp5, Space)
    && |t.year| == 4 && AllDigits(t.year)
  }

  /** The text the pieces spell. */
  function Render(t: CreatedAtText): string {
    t.dow + (t.sp1 + (t.mon + (t.sp2 + (t.day + (t.sp3 + Clock(t.hh, t.mm, t.ss, Zone(t.sp4, t.sign, t.tz, t.sp5, t.year)))))))
  }

  function Clock(hh: string, mm: string, ss: string, rest: string): string {
    hh + ([':'] + (mm + ([':'] + (ss + rest))))
  }

  function Zone(sp4: string, sign: char, tz: string, sp5: string, year: string): string {
    sp4 + ([sign] + (tz + (sp5 + year)))
  }

  /** The two captures of a successful match: the month name and the year. */
  datatype Captures = Captures(monthName: string, year: string)

  datatype Head = Head(dow: string, sp1: string, mon: string, sp2: string, day: string, sp3: string, rest: string)

  /** `\w+\s+(\w+)\s+\d+\s+` at the start, and what follows it. */
  function MatchHead(s: string): (r: Option<Head>)
    ensures r.Some? ==> var h := r.value;
              Run(h.dow, Word) && Run(h.sp1, Space) && Run(h.mon, Word) && Run(h.sp2, Space)
              && Run(h.day, Digit) && Run(h.sp3, Space) && (h.rest == [] || !IsSpace(h.rest[0]))
              && s == h.dow + (h.sp1 + (h.mon + (h.sp2 + (h.day + (h.sp3 + h.rest)))))
  {
    var dow := Span(s, Word);
    var sp1 := Span(dow.1, Space);
    var mon := Span(sp1.1, Word);
    var sp2 := Span(mon.1, Space);
    var day := Span(sp2.1, Digit);
    var sp3 := Span(day.1, Space);
    if dow.0 == [] || sp1.0 == [] || mon.0 == [] || sp2.0 == [] || day.0 == [] || sp3.0 == [] then None
    else Some(Head(dow.0, sp1.0, mon.0, sp2.0, day.0, sp3.0, sp3.1))
  }

  datatype ClockTime = ClockTime(hh: string, mm: string, ss: string, rest: string)

  /** `\d+:\d+:\d+` at the start, and what follows it. */
  function MatchClock(s: string): (r: Option<ClockTime>)
    ensures r.Some? ==> var c := r.value;
              Run(c.hh, Digit) && Run(c.mm, Digit) && Run(c.ss, Digit) && (c.rest == [] || !IsDigit(c.rest[0]))
              && s == Clock(c.hh, c.mm, c.ss, c.rest)
  {
    var hh := Span(s, Digit);
    if hh.0 == [] || hh.1 == [] || hh.1[0] != ':' then None
    else
      var mm := Span(hh.1[1..], Digit);
      if mm.0 == [] || mm.1 == [] || mm.1[0] != ':' then None
      else
        var ss := Span(mm.1[1..], Digit);
        if ss.0 == [] then None
        else
          assert hh.1 == [':'] + hh.1[1..] && mm.1 == [':'] + mm.1[1..];
          Some(ClockTime(hh.0, mm.0, ss.0, ss.1))
  }

  datatype ZoneYear = ZoneYear(sp4: string, sign: char, tz: string, sp5: string, year: string)

  /** `\s+[+-]\d+\s+(\d{4})$` on the rest of the text. */
  function MatchTail(s: string): (r: Option<ZoneYear>)
    ensures r.Some? ==> var z := r.value;
              Run(z.sp4, Space) && (z.sign == '+' || z.sign == '-') && Run(z.tz, Digit) && Run(z.sp5, Space)
              && |z.year| == 4 && AllDigits(z.year)
              && s == Zone(z.sp4, z.sign, z.tz, z.sp5, z.year)
  {
    var sp4 := Span(s, Space);
    if sp4.0 == [] || sp4.1 == [] || !(sp4.1[0] == '+' || sp4.1[0] == '-') then None
    else
      var tz := Span(sp4.1[1..], Digit);
      var sp5 := Span(tz.1, Space);
      var year := sp5.1;
      if tz.0 == [] || sp5.0 == [] || |year| != 4 || !AllDigits(year) then None
      else
        assert sp4.1 == [sp4.1[0]] + sp4.1[1..];
        Some(ZoneYear(sp4.0, sp4.1[0], tz.0, sp5.0, year))
  }

  /** The whole pattern: the pieces of the text when it matches. */
  function MatchParts(s: string): (r: Option<CreatedAtText>)
    ensures r.Some? ==> WellFormed(r.value) && Render(r.value) == s
  {
    match MatchHead(s)
    case None => None
    case Some(h) =>
      match MatchClock(h.rest)
      case None => None
      case Some(c) =>
        match MatchTail(c.rest)
        case None => None
        case Some(z) =>
          Some(CreatedAtText(h.dow, h.sp1, h.mon, h.sp2, h.day, h.sp3, c.hh, c.mm, c.ss,
                             z.sp4, z.sign, z.tz, z.sp5, z.year))
  }

  /** `createdAt.match(...)`: the month name and the year when the text has
      the pattern's shape, and `None` otherwise. */
  function MatchCreatedAt(s: string): (r: Option<Captures>)
    ensures r.Some? ==> r.value.monthName != [] && AllIn(r.value.monthName, Word)
    ensures r.Some? ==> |r.value.year| == 4 && AllDigits(r.value.year)
    ensures r.Some? ==>
              exists t: CreatedAtText :: WellFormed(t) && Render(t) == s
                                         && r.value == Captures(t.mon, t.year)
  {
    match MatchParts(s)
    case None => None
    case Some(t) => Some(Captures(t.mon, t.year))
  }

  /** Every text of the pattern's shape is matched, and the match recovers
      its pieces; with the lemma above, a text matches exactly when it has
      that shape. */
  lemma MatchRendered(t: CreatedAtText)
    requires WellFormed(t)
    ensures MatchParts(Render(t)) == Some(t)
    ensures MatchCreatedAt(Render(t)) == Some(Captures(t.mon, t.year))
  {
    MatchPartsRendered(t);
  }

  lemma MatchPartsRendered(t: CreatedAtText)
    requires WellFormed(t)
    ensures MatchParts(Render(t)) == Some(t)
  {
    MatchHeadRendered(t);
    MatchClockRendered(t);
    MatchTailRendered(t);
  }

  function ClockOf(t: CreatedAtText): string {
    Clock(t.hh, t.mm, t.ss, ZoneOf(t))
  }

  function ZoneOf(t: CreatedAtText): string {
    Zone(t.sp4, t.sign, t.tz, t.sp5, t.year)
  }

  lemma {:induction false} MatchHeadRendered(t: CreatedAtText)
    requires WellFormed(t)
    ensures MatchHead(Render(t)) == Some(Head(t.dow, t.sp1, t.mon, t.sp2, t.day, t.sp3, ClockOf(t)))
  {
    var rest := ClockOf(t);
    var r5 := t.sp3 + rest;
    var r4 := t.day + r5;
    var r3 := t.sp2 + r4;
    var r2 := t.mon + r3;
    var r1 := t.sp1 + r2;
    StartsOutside(t.sp1, r2, Space, Word);
    SpanOfRun(t.dow, r1, Word);
    StartsOutside(t.mon, r3, Word, Space);
    SpanOfRun(t.sp1, r2, Space);
    StartsOutside(t.sp2, r4, Space, Word);
    SpanOfRun(t.mon, r3, Word);
    StartsOutside(t.day, r5, Digit, Space);
    SpanOfRun(t.sp2, r4, Space);
    StartsOutside(t.sp3, rest, Space, Digit);
    SpanOfRun(t.day, r5, Digit);
    StartsOutside(t.hh, Zone(t.sp4, t.sign, t.tz, t.sp5, t.year), Digit, Space);
    SpanOfRun(t.sp3, rest, Space);
  }

  lemma {:induction false} MatchClockRendered(t: CreatedAtText)
    requires WellFormed(t)
    ensures MatchClock(ClockOf(t)) == Some(ClockTime(t.hh, t.mm, t.ss, ZoneOf(t)))
  {
    var rest := ZoneOf(t);
    var r7 := t.ss + rest;
    var r6 := [':'] + r7;
    var r5 := t.mm + r6;
    var r4 := [':'] + r5;
    SpanOfRun(t.hh, r4, Digit);
    assert r4[1..] == r5;
    SpanOfRun(t.mm, r6, Digit);
    assert r6[1..] == r7;
    StartsOutside(t.sp4, [t.sign] + (t.tz + (t.sp5 + t.year)), Space, Digit);
    SpanOfRun(t.ss, rest, Digit);
  }

  lemma {:induction false} MatchTailRendered(t: CreatedAtText)
    requires WellFormed(t)
    ensures MatchTail(ZoneOf(t)) == Some(ZoneYear(t.sp4, t.sign, t.tz, t.sp5, t.year))
  {
    var r11 := t.sp5 + t.year;
    var r10 := t.tz + r11;
    var r9 := [t.sign] + r10;
    SpanOfRun(t.sp4, r9, Space);
    assert r9[1..] == r10;
    StartsOutside(t.sp5, t.year, Space, Digit);
    SpanOfRun(t.tz, r11, Digit);
    assert !IsSpace(t.year[0]);
    SpanOfRun(t.sp5, t.year, Space);
  }

  /** A text that starts in one class does not start in a disjoint one. */
  lemma StartsOutside(x: string, y: string, cls: CharClass, other: CharClass)
    requires x != [] && InClass(x[0], cls)
    requires cls != other && !(cls == Word && other == Digit) && !(cls == Digit && other == Word)
    ensures (x + y)[0] == x[0] && !InClass((x + y)[0], other)
  {
  }

  /** The month names in calendar order, as the downloader's table keys them. */
  const MonthNames: seq<string> :=
    ["Jan", "Feb", "Mar", "Apr", "May", "Jun", "Jul", "Aug", "Sep", "Oct", "Nov", "Dec"]

  /** `n` written with two digits. */
  function TwoDigits(n: nat): (r: string)
    requires n < 100
    ensures |r| == 2 && AllDigits(r)
  {
    [('0' as int + n / 10) as char, ('0' as int + n % 10) as char]
  }

  /** The downloader's month table, consulted for its own twelve keys only:
      the code of a month name is its place in the calendar, written with two
      digits, and no other name has one. */
  function MonthCode(name: string): (r: Option<string>)
    ensures r.Some? <==> name in MonthNames
    ensures forall i :: 0 <= i < |MonthNames| && MonthNames[i] == name ==> r == Some(TwoDigits(i + 1))
  {
    if name == "Jan" then Some("01") else if name == "Feb" then Some("02")
    else if name == "Mar" then Some("03") else if name == "Apr" then Some("04")
    else if name == "May" then Some("05") else if name == "Jun" then Some("06")
    else if name == "Jul" then Some("07") else if name == "Aug" then Some("08")
    else if name == "Sep" then Some("09") else if name == "Oct" then Some("10")
    else if name == "Nov" then Some("11") else if name == "Dec" then Some("12")
    else None
  }

  datatype YearMonth = YearMonth(year: string, month: string)

  /** `parseCreatedAtToYearMonth`, with the month table consulted only for its
      own twelve keys: the captured year and the captured month's code, or
      nothing. */
  function ParseCreatedAtToYearMonth(createdAt: string): (r: Option<YearMonth>)
    ensures createdAt == [] ==> r.None?
    ensures r.Some? ==> |r.value.year| == 4 && AllDigits(r.value.year)
    ensures r.Some? ==> |r.value.month| == 2 && AllDigits(r.value.month)
    ensures r.Some? <==> MatchCreatedAt(createdAt).Some? && MonthCode(MatchCreatedAt(createdAt).value.monthName).Some?
    ensures r.Some? ==> var m := MatchCreatedAt(createdAt).value;
              r.value == YearMonth(m.year, MonthCode(m.monthName).value)
  {
    if createdAt == [] then None
    else match MatchCreatedAt(createdAt)
      case None => None
      case Some(c) =>
        match MonthCode(c.monthName)
        case None => None
        case Some(m) => Some(YearMonth(c.year, m))
  }

  /** The corrected reading yields the year and the month's number for every
      creation time of the pattern's shape with an English month
      abbreviation. */
  lemma ParseRendered(t: CreatedAtText)
    requires WellFormed(t)
    requires MonthCode(t.mon).Some?
    ensures ParseCreatedAtToYearMonth(Render(t)) == Some(YearMonth(t.year, MonthCode(t.mon).value))
  {
    MatchRendered(t);
  }

  // ---------------------------------------------------------------------
  // The month table as written is a plain object literal, so a lookup with a
  // captured name also finds the members every object inherits.

  /** Names every plain object answers through its prototype; all of them
      are made of word characters and so can be captured as a month name. */
  predicate IsInheritedMember(name: string) {
    name == "constructor" || name == "hasOwnProperty" || name == "isPrototypeOf"
    || name == "propertyIsEnumerable" || name == "toLocaleString" || name == "toString"
    || name == "valueOf" || name == "__proto__" || name == "__defineGetter__"
    || name == "__defineSetter__" || name == "__lookupGetter__" || name == "__lookupSetter__"
  }

  /** What a lookup in the object-literal month table yields: one of its own
      twelve codes, or an inherited member (a function or the prototype). */
  datatype TableEntry = OwnCode(code: string) | InheritedValue(member: string)

  function MonthTableLookupAsWritten(name: string): (r: Option<TableEntry>)
    ensures MonthCode(name).Some? ==> r == Some(OwnCode(MonthCode(name).value))
    ensures r.Some? <==> MonthCode(name).Some? || IsInheritedMember(name)
  {
    match MonthCode(name)
    case Some(c) => Some(OwnCode(c))
    case None => if IsInheritedMember(name) then Some(InheritedValue(name)) else None
  }

  /** `parseCreatedAtToYearMonth` as written: every entry the table yields is
      truthy, so an inherited member is accepted as a month. */
  function ParseCreatedAtAsWritten(createdAt: string): (r: Option<(string, TableEntry)>)
    ensures r.Some? <==>
              MatchCreatedAt(createdAt).Some?
              && MonthTableLookupAsWritten(MatchCreatedAt(createdAt).value.monthName).Some?
    ensures r.Some? ==> var m := MatchCreatedAt(createdAt).value;
              r.value == (m.year, MonthTableLookupAsWritten(m.monthName).value)
  {
    if createdAt == [] then None
    else match MatchCreatedAt(createdAt)
      case None => None
      case Some(c) =>
        match MonthTableLookupAsWritten(c.monthName)
        case None => None
        case Some(e) => Some((c.year, e))
  }

  /** A creation time of the pattern's shape whose month word is an
      inherited member name is accepted as written, with that member standing
      in for the month, while the corrected reading rejects it. */
  lemma InheritedMemberAccepted(t: CreatedAtText)
    requires WellFormed(t)
    requires IsInheritedMember(t.mon)
    ensures ParseCreatedAtAsWritten(Render(t)) == Some((t.year, InheritedValue(t.mon)))
    ensures ParseCreatedAtToYearMonth(Render(t)).None?
  {
    MatchRendered(t);
    InheritedNotMonth(t.mon);
  }

  /** No inherited member name is one of the twelve month abbreviations. */
  lemma InheritedNotMonth(name: string)
    requires IsInheritedMember(name)
    ensures MonthCode(name).None?
  {
    assert |name| != 3;
  }

  /** "Sat constructor 12 10:00:00 +0800 2020". */
  const ConstructorSample: CreatedAtText :=
    CreatedAtText("Sat", " ", "constructor", " ", "12", " ", "10", "00", "00", " ", '+', "0800", " ", "2020")

  /** For instance "Sat constructor 12 10:00:00 +0800 2020". */
  lemma InheritedMonthAccepted()
    ensures ParseCreatedAtAsWritten(Render(ConstructorSample)) == Some(("2020", InheritedValue("constructor")))
    ensures ParseCreatedAtToYearMonth(Render(ConstructorSample)).None?
  {
    SampleWellFormed();
    InheritedMemberAccepted(ConstructorSample);
  }

  lemma SampleWellFormed()
    ensures WellFormed(ConstructorSample)
  {
    var mon := "constructor";
    assert AllIn(mon, Word) by {
      forall i | 0 <= i < |mon|
        ensures InClass(mon[i], Word)
      {
        assert 'a' <= mon[i] <= 'z';
      }
    }
    assert AllIn("Sat", Word);
    assert AllIn(" ", Space);
    assert AllIn("12", Digit) && AllIn("10", Digit) && AllIn("00", Digit) && AllIn("0800", Digit);
    assert AllDigits("2020");
  }
}
