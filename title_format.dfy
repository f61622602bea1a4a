/**
 * `EncoraMovieMetadataProvider.FormatTitle`: renders the configured title
 * template against a recording. The date is split on '-', an unknown month or
 * day becomes two copies of the configured placeholder character, four date
 * renderings are built, an "Act N" found in the media path is appended to the
 * show, and the seven `{...}` tokens are replaced one after another.
 */
module TitleFormat {
  import opened Wrappers
  import opened Text
  import opened Models

  /** The exceptions `FormatTitle` can throw. */
  datatype FormatError =
    | EmptyReplaceChar                                      // `dateReplaceChar[0]` on an empty setting
    | InvalidCalendarDate(year: int, month: int, day: int)  // `new DateTime(y, m, d)` out of range

  /** `ToString("MMMM", CultureInfo.InvariantCulture)` for months 1..12. */
  const MonthNames: seq<string> := ["January", "February", "March", "April", "May", "June",
    "July", "August", "September", "October", "November", "December"]

  predicate IsLeapYear(y: int) {
    y % 4 == 0 && (y % 100 != 0 || y % 400 == 0)
  }

  function DaysInMonth(y: int, m: int): int
    requires 1 <= m <= 12
  {
    if m == 2 then (if IsLeapYear(y) then 29 else 28)
    else if m == 4 || m == 6 || m == 9 || m == 11 then 30
    else 31
  }

  /** The arguments `new DateTime(y, m, d)` accepts without throwing. */
  predicate IsValidDate(y: int, m: int, d: int) {
    1 <= y <= 9999 && 1 <= m <= 12 && 1 <= d <= DaysInMonth(y, m)
  }

  /** The "yyyy" format: the year with at least four digits. */
  function Year4(y: nat): (s: string)
    ensures |s| >= 4 && AllDigits(s)
  {
    var t := NatToString(y);
    if |t| >= 4 then t else seq(4 - |t|, _ => '0') + t
  }

  /** `new string(dateReplaceChar[0], 2)`, when the setting is not empty. */
  function Placeholder(replace: string): string {
    if replace == "" then "" else [replace[0], replace[0]]
  }

  /** Year, month and day text as `FormatTitle` derives them from `FullDate`. */
  datatype DateParts = DateParts(year: string, month: string, day: string)

  /** Whether the month (resp. day) is taken from `FullDate` rather than the placeholder. */
  predicate MonthGiven(date: EncoraDate)
    requires date.fullDate.Some?
  {
    |Split(date.fullDate.value, '-')| > 1 && date.monthKnown
  }

  predicate DayGiven(date: EncoraDate)
    requires date.fullDate.Some?
  {
    |Split(date.fullDate.value, '-')| > 2 && date.dayKnown
  }

  /** Splits `FullDate` on '-'; a missing or unknown month or day becomes the
      placeholder, whose construction throws when the setting is empty. */
  function SplitDate(date: EncoraDate, replace: string): (r: Result<DateParts, FormatError>)
    requires date.fullDate.Some?
    ensures r.Err? <==> replace == "" && !(MonthGiven(date) && DayGiven(date))
  {
    var parts := Split(date.fullDate.value, '-');
    if replace == "" && !(MonthGiven(date) && DayGiven(date)) then Err(EmptyReplaceChar)
    else
      Ok(DateParts(parts[0],
        if MonthGiven(date) then parts[1] else Placeholder(replace),
        if DayGiven(date) then parts[2] else Placeholder(replace)))
  }

  /** The `{date}` rendering before suffixes. */
  function LongDate(date: EncoraDate, p: DateParts, replace: string): Result<string, FormatError> {
    var m := TryParseInt32(Some(p.month));
    var d := TryParseInt32(Some(p.day));
    var y := TryParseInt32(Some(p.year));
    if date.monthKnown && date.dayKnown && m.Some? && d.Some? && y.Some? then
      if IsValidDate(y.value, m.value, d.value) then
        Ok(MonthNames[m.value - 1] + " " + IntToString(d.value) + ", " + Year4(y.value))
      else Err(InvalidCalendarDate(y.value, m.value, d.value))
    else if date.monthKnown && m.Some? && y.Some? then
      if IsValidDate(y.value, m.value, 1) then
        Ok(MonthNames[m.value - 1] + " " + (if date.dayKnown then p.day else Placeholder(replace)) + ", " + p.year)
      else Err(InvalidCalendarDate(y.value, m.value, 1))
    else if y.Some? then Ok(p.year)
    else Ok(p.year + "-" + p.month + "-" + p.day)
  }

  /** " (variant)" for a non-blank variant. */
  function VariantSuffix(date: EncoraDate): string {
    if !IsNullOrWhiteSpace(date.dateVariant) then " (" + date.dateVariant.value + ")" else ""
  }

  predicate IsMatinee(date: EncoraDate) {
    !IsNullOrWhiteSpace(date.time) && EqualsIgnoreCase(date.time.value, "matinee")
  }

  /** " (matinée)" when the time is "matinee", ignoring case. */
  function MatineeSuffix(date: EncoraDate): string {
    if IsMatinee(date) then " (mati\U{00E9}e)" else ""
  }

  datatype DateStrings = DateStrings(long: string, iso: string, usa: string, numeric: string)

  /** The four renderings of the date parts `p`, `long` being the `{date}` text,
      each followed by the same suffix. */
  function Renderings(p: DateParts, long: string, sfx: string): DateStrings {
    DateStrings(
      long + sfx,
      p.year + "-" + p.month + "-" + p.day + sfx,
      p.month + "-" + p.day + "-" + p.year + sfx,
      p.day + "-" + p.month + "-" + p.year + sfx)
  }

  /** The date renderings; `None` when there is no date or `FullDate` is blank. */
  function DateStringsOf(date: Option<EncoraDate>, replace: string): Result<Option<DateStrings>, FormatError> {
    if date.None? || IsNullOrWhiteSpace(date.value.fullDate) then Ok(None)
    else
      match SplitDate(date.value, replace)
      case Err(e) => Err(e)
      case Ok(p) =>
        match LongDate(date.value, p, replace)
        case Err(e) => Err(e)
        case Ok(long) => Ok(Some(Renderings(p, long, VariantSuffix(date.value) + MatineeSuffix(date.value))))
  }

  /** `Act\s*(\d+)` matches at position `i`, ignoring case. */
  predicate ActAt(path: string, i: nat) {
    i + 3 <= |path| && EqualsIgnoreCase(path[i..i + 3], "act")
    && var j := i + 3 + RunLength(path[i + 3..], WhiteSpace);
    j < |path| && IsDigit(path[j])
  }

  /** The captured digits of the match at `i`. */
  function ActDigits(path: string, i: nat): (n: string)
    requires ActAt(path, i)
    ensures |n| >= 1 && AllDigits(n)
  {
    var j := i + 3 + RunLength(path[i + 3..], WhiteSpace);
    path[j..j + RunLength(path[j..], Digit)]
  }

  /** The show name, with " Act <digits>" when the path holds an act number. */
  function ShowWithAct(show: Option<string>, path: string): Option<string> {
    match FirstWhere(0, |path|, (i: nat) => ActAt(path, i))
    case None => show
    case Some(i) => Some(show.GetOr("") + " Act " + ActDigits(path, i))
  }

  /** The template variables, in the order the dictionary enumerates them. */
  const TokenKeys: seq<string> := ["show", "date", "date_iso", "date_numeric", "date_usa", "tour", "master"]

  function Variables(show: Option<string>, dates: Option<DateStrings>, tour: Option<string>, master: Option<string>)
    : (vars: seq<(string, Option<string>)>)
    ensures |vars| == |TokenKeys| && forall i :: 0 <= i < |vars| ==> vars[i].0 == TokenKeys[i]
  {
    [("show", show),
     ("date", if dates.None? then None else Some(dates.value.long)),
     ("date_iso", if dates.None? then None else Some(dates.value.iso)),
     ("date_numeric", if dates.None? then None else Some(dates.value.numeric)),
     ("date_usa", if dates.None? then None else Some(dates.value.usa)),
     ("tour", tour),
     ("master", master)]
  }

  /** The variables `FormatTitle` fills in for `recording` found at `path`. */
  function TitleVariables(path: string, recording: EncoraRecording, dates: Option<DateStrings>)
    : seq<(string, Option<string>)>
  {
    Variables(ShowWithAct(recording.show, path), dates, recording.tour, recording.master)
  }

  /** Replaces `{key}` by each value in turn; a null value becomes "". */
  function Substitute(format: string, vars: seq<(string, Option<string>)>): string
    decreases |vars|
  {
    if vars == [] then format
    else Substitute(ReplaceAll(format, "{" + vars[0].0 + "}", vars[0].1.GetOr("")), vars[1..])
  }

  /** What `FormatTitle` returns, or the exception it throws. */
  function FormatTitleSpec(format: string, replace: string, path: string, recording: EncoraRecording)
    : Result<string, FormatError>
  {
    match DateStringsOf(recording.date, replace)
    case Err(e) => Err(e)
    case Ok(dates) => Ok(RenderTitle(format, path, recording, dates))
  }

  /** The title once the date renderings are known: every token substituted, then trimmed. */
  function RenderTitle(format: string, path: string, recording: EncoraRecording, dates: Option<DateStrings>): string {
    Trim(Substitute(format, TitleVariables(path, recording, dates)))
  }

  /** The date block of `FormatTitle`: the four renderings, built and suffixed in turn. */
  method BuildDateStrings(date: Option<EncoraDate>, replace: string)
    returns (r: Result<Option<DateStrings>, FormatError>)
    ensures r == DateStringsOf(date, replace)
  {
    if date.None? || IsNullOrWhiteSpace(date.value.fullDate) {
      return Ok(None);
    }
    var parts := SplitDate(date.value, replace);
    if parts.Err? {
      return Err(parts.error);
    }
    var p := parts.value;
    var long := LongDate(date.value, p, replace);
    if long.Err? {
      return Err(long.error);
    }
    var dateLong := long.value;
    var dateIso := p.year + "-" + p.month + "-" + p.day;
    var dateUsa := p.month + "-" + p.day + "-" + p.year;
    var dateNumeric := p.day + "-" + p.month + "-" + p.year;
    ghost var sfx := "";
    if !IsNullOrWhiteSpace(date.value.dateVariant) {
      var v := " (" + date.value.dateVariant.value + ")";
      dateLong, dateIso, dateUsa, dateNumeric := dateLong + v, dateIso + v, dateUsa + v, dateNumeric + v;
      sfx := v;
    }
    assert sfx == VariantSuffix(date.value);
    assert DateStrings(dateLong, dateIso, dateUsa, dateNumeric) == Renderings(p, long.value, sfx);
    if IsMatinee(date.value) {
      var m := " (mati\U{00E9}e)";
      dateLong, dateIso, dateUsa, dateNumeric := dateLong + m, dateIso + m, dateUsa + m, dateNumeric + m;
      AppendSuffix(p, long.value, sfx, m);
      sfx := sfx + m;
    }
    assert sfx == VariantSuffix(date.value) + MatineeSuffix(date.value);
    DateStringsOfParts(date.value, replace, p, long.value);
    r := Ok(Some(DateStrings(dateLong, dateIso, dateUsa, dateNumeric)));
  }

  /** Appending to each rendering extends their common suffix. */
  lemma AppendSuffix(p: DateParts, long: string, sfx: string, more: string)
    ensures var d := Renderings(p, long, sfx);
      DateStrings(d.long + more, d.iso + more, d.usa + more, d.numeric + more) == Renderings(p, long, sfx + more)
  {
  }

  /** `FormatTitle(format, recording, path)` with the placeholder setting `replace`. */
  method FormatTitle(format: string, replace: string, path: string, recording: EncoraRecording)
    returns (title: Result<string, FormatError>)
    ensures title == FormatTitleSpec(format, replace, path, recording)
  {
    var dates := BuildDateStrings(recording.date, replace);
    if dates.Err? {
      return Err(dates.error);
    }
    var vars := TitleVariables(path, recording, dates.value);
    var text := format;
    for i := 0 to |vars|
      invariant Substitute(text, vars[i..]) == Substitute(format, vars)
    {
      assert vars[i..][1..] == vars[i + 1..];
      text := ReplaceAll(text, "{" + vars[i].0 + "}", vars[i].1.GetOr(""));
    }
    title := Ok(Trim(text));
  }

  // ---------------------------------------------------------------------------
  // Substitution

  /** The value substituted for `{key}`: that of the first entry named `key`. */
  function Lookup(vars: seq<(string, Option<string>)>, key: string): Option<string> {
    if vars == [] then None
    else if vars[0].0 == key then Some(vars[0].1.GetOr(""))
    else Lookup(vars[1..], key)
  }

  predicate BraceFree(s: string) {
    '{' !in s && '}' !in s
  }

  /** One token never occurs inside another one. */
  lemma TokenInToken(a: string, b: string)
    requires BraceFree(a) && BraceFree(b) && a != b
    ensures !Occurs("{" + a + "}", "{" + b + "}")
  {
    var pat, s := "{" + a + "}", "{" + b + "}";
    forall i | 0 <= i <= |s| ensures !OccursAt(pat, s, i) {
      if 0 < i <= |s| - |pat| {
        assert s[i..i + |pat|][0] == b[i - 1] != pat[0];
      } else if i == 0 && |pat| < |s| {
        assert s[..|pat|][|pat| - 1] == b[|pat| - 2] != pat[|pat| - 1];
      } else if i == 0 && |pat| == |s| {
        assert pat[1..|pat| - 1] == a && s[1..|s| - 1] == b;
        assert s[0..|pat|] == s != pat;
      }
    }
  }

  /** A template holding only `{key}` renders as the value substituted for it,
      when that value holds no '{' for later keys to match. */
  lemma {:induction false} SubstituteToken(key: string, vars: seq<(string, Option<string>)>)
    requires BraceFree(key)
    requires forall i :: 0 <= i < |vars| ==> BraceFree(vars[i].0)
    requires Lookup(vars, key).Some? && '{' !in Lookup(vars, key).value
    ensures Substitute("{" + key + "}", vars) == Lookup(vars, key).value
  {
    var token := "{" + key + "}";
    var v := Lookup(vars, key).value;
    if vars[0].0 == key {
      assert token + "" == token;
      ReplaceHead("", token, v);
      assert v + "" == v;
      SubstituteBraceFree(v, vars[1..]);
    } else {
      TokenInToken(vars[0].0, key);
      ReplaceAbsent(token, "{" + vars[0].0 + "}", vars[0].1.GetOr(""));
      SubstituteToken(key, vars[1..]);
    }
  }

  /** The entry at `j` is the one looked up when no earlier entry shares its key. */
  lemma {:induction false} LookupFirst(vars: seq<(string, Option<string>)>, j: nat)
    requires j < |vars|
    requires forall i :: 0 <= i < j ==> vars[i].0 != vars[j].0
    ensures Lookup(vars, vars[j].0) == Some(vars[j].1.GetOr(""))
  {
    if j > 0 {
      assert vars[1..][j - 1] == vars[j];
      LookupFirst(vars[1..], j - 1);
    }
  }

  /** A template holding none of the seven tokens comes back as it is. */
  lemma {:induction false} SubstituteWithoutTokens(format: string, vars: seq<(string, Option<string>)>)
    requires forall i :: 0 <= i < |vars| ==> !Occurs("{" + vars[i].0 + "}", format)
    ensures Substitute(format, vars) == format
  {
    if vars != [] {
      ReplaceAbsent(format, "{" + vars[0].0 + "}", vars[0].1.GetOr(""));
      SubstituteWithoutTokens(format, vars[1..]);
    }
  }

  /** Text without '{' is left alone by every substitution. */
  lemma {:induction false} SubstituteBraceFree(t: string, vars: seq<(string, Option<string>)>)
    requires '{' !in t
    ensures Substitute(t, vars) == t
  {
    if vars != [] {
      ReplaceSkips(t, "", "{" + vars[0].0 + "}", vars[0].1.GetOr(""));
      assert t + "" == t;
      SubstituteBraceFree(t, vars[1..]);
    }
  }

  /** A template without any token renders as the trimmed template. */
  lemma TemplateWithoutTokens(format: string, path: string, recording: EncoraRecording, dates: Option<DateStrings>)
    requires forall k :: k in TokenKeys ==> !Occurs("{" + k + "}", format)
    ensures RenderTitle(format, path, recording, dates) == Trim(format)
  {
    var vars := TitleVariables(path, recording, dates);
    assert forall i :: 0 <= i < |vars| ==> vars[i].0 in TokenKeys;
    SubstituteWithoutTokens(format, vars);
  }

  /** A template made of the single token `{TokenKeys[j]}` renders as that
      variable's value, trimmed; a null value gives "". */
  lemma TokenTemplate(j: nat, path: string, recording: EncoraRecording, dates: Option<DateStrings>)
    requires j < |TokenKeys|
    requires '{' !in TitleVariables(path, recording, dates)[j].1.GetOr("")
    ensures RenderTitle("{" + TokenKeys[j] + "}", path, recording, dates)
      == Trim(TitleVariables(path, recording, dates)[j].1.GetOr(""))
  {
    var vars := TitleVariables(path, recording, dates);
    assert forall i :: 0 <= i < |vars| ==> BraceFree(vars[i].0) by {
      forall i | 0 <= i < |vars| ensures BraceFree(vars[i].0) {
        assert vars[i].0 == TokenKeys[i];
      }
    }
    assert forall i :: 0 <= i < j ==> vars[i].0 != vars[j].0 by {
      forall i | 0 <= i < j ensures vars[i].0 != vars[j].0 {
        assert vars[i].0 == TokenKeys[i] && vars[j].0 == TokenKeys[j];
        assert TokenKeys[i][1] != TokenKeys[j][1] || |TokenKeys[i]| != |TokenKeys[j]|
          || TokenKeys[i][5] != TokenKeys[j][5];
      }
    }
    LookupFirst(vars, j);
    SubstituteToken(TokenKeys[j], vars);
  }

  /** The fallback template "{show}" renders as the show name (with any act suffix), trimmed. */
  lemma ShowTemplate(path: string, recording: EncoraRecording, dates: Option<DateStrings>)
    requires '{' !in ShowWithAct(recording.show, path).GetOr("")
    ensures RenderTitle("{show}", path, recording, dates) == Trim(ShowWithAct(recording.show, path).GetOr(""))
  {
    assert TitleVariables(path, recording, dates)[0].1 == ShowWithAct(recording.show, path);
    assert "{" + TokenKeys[0] + "}" == "{show}";
    TokenTemplate(0, path, recording, dates);
  }

  /** A missing or blank `FullDate` yields no renderings, and every date token then renders as "". */
  lemma AbsentDateEmptiesDateTokens(key: string, replace: string, path: string, recording: EncoraRecording)
    requires key in ["date", "date_iso", "date_numeric", "date_usa"]
    requires recording.date.None? || IsNullOrWhiteSpace(recording.date.value.fullDate)
    ensures DateStringsOf(recording.date, replace) == Ok(None)
    ensures RenderTitle("{" + key + "}", path, recording, None) == ""
  {
    var j := if key == "date" then 1 else if key == "date_iso" then 2 else if key == "date_numeric" then 3 else 4;
    assert TokenKeys[j] == key;
    TokenTemplate(j, path, recording, None);
  }

  /** Replacing the leading token of "{a}<mid>{b}" leaves the trailing one. */
  lemma ReplaceLeadingToken(a: string, mid: string, b: string, v: string)
    requires BraceFree(a) && BraceFree(b) && a != b && '{' !in mid
    ensures ReplaceAll("{" + a + "}" + mid + "{" + b + "}", "{" + a + "}", v) == v + mid + "{" + b + "}"
  {
    var ta, tb := "{" + a + "}", "{" + b + "}";
    assert "{" + a + "}" + mid + "{" + b + "}" == ta + (mid + tb);
    assert ReplaceAll(ta + (mid + tb), ta, v) == v + ReplaceAll(mid + tb, ta, v) by {
      ReplaceHead(mid + tb, ta, v);
    }
    assert ReplaceAll(mid + tb, ta, v) == mid + ReplaceAll(tb, ta, v) by {
      ReplaceSkips(mid, tb, ta, v);
    }
    assert ReplaceAll(tb, ta, v) == tb by {
      TokenInToken(a, b);
      ReplaceAbsent(tb, ta, v);
    }
    assert v + (mid + tb) == v + mid + "{" + b + "}";
  }

  /** Replacing a token at the end of text free of '{'. */
  lemma ReplaceTrailingToken(pre: string, token: string, v: string)
    requires |token| > 0 && token[0] !in pre
    ensures ReplaceAll(pre + token, token, v) == pre + v
  {
    ReplaceSkips(pre, token, token, v);
    assert token + [] == token;
    ReplaceHead([], token, v);
    assert v + [] == v;
  }

  /** A template "{a}<mid>{b}" over the first two variables becomes their values
      around `mid`. */
  lemma SubstituteTwoTokens(vars: seq<(string, Option<string>)>, mid: string, x: string, y: string)
    requires |vars| >= 2 && BraceFree(vars[0].0) && BraceFree(vars[1].0) && vars[0].0 != vars[1].0
    requires vars[0].1.GetOr("") == x && vars[1].1.GetOr("") == y
    requires '{' !in mid && '{' !in x && '{' !in y
    ensures Substitute("{" + vars[0].0 + "}" + mid + "{" + vars[1].0 + "}", vars) == x + mid + y
  {
    var a, b := vars[0].0, vars[1].0;
    var step1, step2 := x + mid + "{" + b + "}", x + mid + y;
    assert ReplaceAll("{" + a + "}" + mid + "{" + b + "}", "{" + a + "}", x) == step1 by {
      ReplaceLeadingToken(a, mid, b, x);
    }
    assert ReplaceAll(step1, "{" + b + "}", y) == step2 by {
      assert '{' !in x + mid;
      assert step1 == (x + mid) + ("{" + b + "}");
      ReplaceTrailingToken(x + mid, "{" + b + "}", y);
    }
    assert Substitute(step2, vars[2..]) == step2 by {
      assert '{' !in step2;
      SubstituteBraceFree(step2, vars[2..]);
    }
    assert Substitute(step1, vars[1..]) == Substitute(step2, vars[2..]) by {
      assert vars[1..][0] == vars[1] && vars[1..][1..] == vars[2..];
    }
  }

  /** The default template "{show} - {date}" renders as show, " - ", long date,
      trimmed, when neither value holds a '{'. */
  lemma DefaultTemplate(path: string, recording: EncoraRecording, dates: Option<DateStrings>, show: string, long: string)
    requires show == ShowWithAct(recording.show, path).GetOr("")
    requires long == (if dates.None? then "" else dates.value.long)
    requires '{' !in show && '{' !in long
    ensures RenderTitle("{show} - {date}", path, recording, dates) == Trim(show + " - " + long)
  {
    var vars := TitleVariables(path, recording, dates);
    assert "{show} - {date}" == "{" + vars[0].0 + "}" + " - " + "{" + vars[1].0 + "}";
    SubstituteTwoTokens(vars, " - ", show, long);
  }

  // ---------------------------------------------------------------------------
  // Dates

  /** With both parts known and `FullDate` made of three dash-free parts, the
      split yields exactly those parts, so the ISO, US and numeric renderings
      reorder them. */
  lemma KnownDateParts(date: EncoraDate, replace: string, y: string, m: string, d: string)
    requires date.monthKnown && date.dayKnown
    requires date.fullDate == Some(y + "-" + m + "-" + d)
    requires '-' !in y && '-' !in m && '-' !in d
    ensures SplitDate(date, replace) == Ok(DateParts(y, m, d))
  {
    assert Join([y, m, d], '-') == y + "-" + m + "-" + d by {
      assert [y, m, d][1..] == [m, d];
      assert [m, d][1..] == [d];
      assert Join([d], '-') == d;
      assert Join([m, d], '-') == m + "-" + d;
    }
    SplitJoin([y, m, d], '-');
  }

  /** An unknown month or day is rendered as two placeholder characters. */
  lemma UnknownPartsUsePlaceholder(date: EncoraDate, replace: string)
    requires date.fullDate.Some?
    requires SplitDate(date, replace).Ok?
    ensures replace != [] || (date.monthKnown && date.dayKnown)
    ensures !date.monthKnown ==> SplitDate(date, replace).value.month == [replace[0], replace[0]]
    ensures !date.dayKnown ==> SplitDate(date, replace).value.day == [replace[0], replace[0]]
  {
  }

  /** With the month unknown and a numeric year, `{date}` is the year text alone. */
  lemma YearOnlyLongDate(date: EncoraDate, p: DateParts, replace: string)
    requires !date.monthKnown
    requires TryParseInt32(Some(p.year)).Some?
    ensures LongDate(date, p, replace) == Ok(p.year)
  {
  }

  /** Once the split and the long date are known, the renderings follow. */
  lemma DateStringsOfParts(date: EncoraDate, replace: string, p: DateParts, long: string)
    requires date.fullDate.Some? && !IsBlank(date.fullDate.value)
    requires SplitDate(date, replace) == Ok(p) && LongDate(date, p, replace) == Ok(long)
    ensures DateStringsOf(Some(date), replace)
      == Ok(Some(Renderings(p, long, VariantSuffix(date) + MatineeSuffix(date))))
  {
  }

  /** A known date whose parts read back as a valid calendar date renders as "MMMM d, yyyy". */
  lemma KnownLongDate(date: EncoraDate, p: DateParts, replace: string, y: int, m: int, d: int)
    requires date.monthKnown && date.dayKnown && IsValidDate(y, m, d)
    requires TryParseInt32(Some(p.year)) == Some(y)
    requires TryParseInt32(Some(p.month)) == Some(m)
    requires TryParseInt32(Some(p.day)) == Some(d)
    ensures LongDate(date, p, replace) == Ok(MonthNames[m - 1] + " " + IntToString(d) + ", " + Year4(y))
  {
  }

  /** A recording dated "y-m-d" in digits, with month and day known and reading back
      as a valid calendar date, gets all four renderings. */
  lemma FullDateRenderings(date: EncoraDate, replace: string, ys: string, ms: string, ds: string, y: int, m: int, d: int)
    requires date.monthKnown && date.dayKnown && IsValidDate(y, m, d)
    requires date.fullDate == Some(ys + "-" + ms + "-" + ds)
    requires ys != [] && AllDigits(ys) && AllDigits(ms) && AllDigits(ds)
    requires TryParseInt32(Some(ys)) == Some(y)
    requires TryParseInt32(Some(ms)) == Some(m)
    requires TryParseInt32(Some(ds)) == Some(d)
    ensures DateStringsOf(Some(date), replace)
      == Ok(Some(Renderings(DateParts(ys, ms, ds),
           MonthNames[m - 1] + " " + IntToString(d) + ", " + Year4(y),
           VariantSuffix(date) + MatineeSuffix(date))))
  {
    var p := DateParts(ys, ms, ds);
    assert !IsBlank(ys + "-" + ms + "-" + ds) by {
      DigitNotWhiteSpace(ys[0]);
      NotBlankAt(ys + "-" + ms + "-" + ds, 0);
    }
    assert SplitDate(date, replace) == Ok(p) by {
      assert '-' !in ys && '-' !in ms && '-' !in ds by {
        assert !IsDigit('-');
      }
      KnownDateParts(date, replace, ys, ms, ds);
    }
    KnownLongDate(date, p, replace, y, m, d);
    DateStringsOfParts(date, replace, p, MonthNames[m - 1] + " " + IntToString(d) + ", " + Year4(y));
  }

  /** A valid calendar date whose month is known but whose day is not renders
      as "MMMM xx, yyyy" with the placeholder. */
  lemma MonthOnlyLongDate(date: EncoraDate, p: DateParts, replace: string, y: int, m: int)
    requires date.monthKnown && !date.dayKnown
    requires TryParseInt32(Some(p.month)) == Some(m) && TryParseInt32(Some(p.year)) == Some(y)
    requires IsValidDate(y, m, 1)
    ensures LongDate(date, p, replace) == Ok(MonthNames[m - 1] + " " + Placeholder(replace) + ", " + p.year)
  {
  }

  /** A month or day out of calendar range makes `new DateTime` throw. */
  lemma InvalidDateThrows(date: EncoraDate, p: DateParts, replace: string, y: int, m: int, d: int)
    requires date.monthKnown && date.dayKnown
    requires TryParseInt32(Some(p.year)) == Some(y) && TryParseInt32(Some(p.month)) == Some(m)
    requires TryParseInt32(Some(p.day)) == Some(d)
    requires !IsValidDate(y, m, d)
    ensures LongDate(date, p, replace) == Err(InvalidCalendarDate(y, m, d))
  {
  }

  // ---------------------------------------------------------------------------
  // Act suffix

  /** "act" in any case, white space and digits at position `|pre|` form a match
      capturing the digits. */
  lemma ActMatch(pre: string, act: string, spaces: string, n: string, post: string)
    requires |act| == 3 && EqualsIgnoreCase(act, "act")
    requires IsBlank(spaces) && |n| >= 1 && AllDigits(n)
    requires post == [] || !IsDigit(post[0])
    ensures var path := pre + act + spaces + n + post;
      ActAt(path, |pre|) && ActDigits(path, |pre|) == n
  {
    var path := pre + act + spaces + n + post;
    var j := |pre| + 3 + |spaces|;
    ActPrefix(pre, act, spaces, n, post);
    assert RunLength(path[j..], Digit) == |n| by {
      RunOf(n, post, Digit);
    }
    assert path[j..j + |n|] == n;
  }

  /** The "act" and the white space after it, up to the digits. */
  lemma ActPrefix(pre: string, act: string, spaces: string, n: string, post: string)
    requires |act| == 3 && EqualsIgnoreCase(act, "act")
    requires IsBlank(spaces) && |n| >= 1 && AllDigits(n)
    ensures var path := pre + act + spaces + n + post;
      var i := |pre|;
      i + 3 <= |path| && EqualsIgnoreCase(path[i..i + 3], "act")
      && RunLength(path[i + 3..], WhiteSpace) == |spaces|
      && path[i + 3 + |spaces|..] == n + post
  {
    var path := pre + act + spaces + n + post;
    var i := |pre|;
    assert path[i..i + 3] == act;
    assert path[i + 3..] == spaces + (n + post);
    SpacesBeforeDigits(spaces, n + post);
  }

  lemma ActIgnoringCase()
    ensures EqualsIgnoreCase("Act", "act")
  {
    assert ToLower("Act") == "act";
  }

  /** The white space before a digit is one run. */
  lemma SpacesBeforeDigits(spaces: string, rest: string)
    requires IsBlank(spaces) && |rest| >= 1 && IsDigit(rest[0])
    ensures RunLength(spaces + rest, WhiteSpace) == |spaces|
  {
    DigitNotWhiteSpace(rest[0]);
    RunOf(spaces, rest, WhiteSpace);
  }

  /** A match begins with 'a' or 'A'. */
  lemma NoActAtOtherLetter(path: string, k: nat)
    requires k < |path| && path[k] != 'a' && path[k] != 'A'
    ensures !ActAt(path, k)
  {
    if k + 3 <= |path| {
      assert ToLower(path[k..k + 3])[0] == LowerChar(path[k]);
      assert ToLower("act")[0] == 'a';
    }
  }

  /** A path with no match anywhere leaves the show name as it is. */
  lemma NoActInPath(show: Option<string>, path: string)
    requires forall k: nat :: k < |path| ==> !ActAt(path, k)
    ensures ShowWithAct(show, path) == show
  {
    var isMatch := (i: nat) => ActAt(path, i);
    assert forall k: nat :: k < |path| ==> !isMatch(k);
  }

  /** "act" in any case followed by white space and digits, anywhere in the path and
      with no match before it, gives the show " Act <digits>". */
  lemma ActSuffixFromPath(show: Option<string>, pre: string, act: string, spaces: string, n: string, post: string)
    requires |act| == 3 && EqualsIgnoreCase(act, "act")
    requires forall k: nat :: k < |pre| ==> !ActAt(pre + act + spaces + n + post, k)
    requires IsBlank(spaces) && |n| >= 1 && AllDigits(n)
    requires post == [] || !IsDigit(post[0])
    ensures ShowWithAct(show, pre + act + spaces + n + post) == Some(show.GetOr("") + " Act " + n)
  {
    var path := pre + act + spaces + n + post;
    ActMatch(pre, act, spaces, n, post);
    var isMatch := (i: nat) => ActAt(path, i);
    assert isMatch(|pre|);
    assert forall k: nat :: k < |pre| ==> !isMatch(k);
    var found := FirstWhere(0, |path|, isMatch);
    assert found.Some?;
    assert found.value == |pre|;
  }

  /** A match has 'c' or 'C' second. */
  lemma NoActAtOtherSecondLetter(path: string, k: nat)
    requires k + 1 < |path| && path[k + 1] != 'c' && path[k + 1] != 'C'
    ensures !ActAt(path, k)
  {
    if k + 3 <= |path| {
      assert ToLower(path[k..k + 3])[1] == LowerChar(path[k + 1]);
      assert ToLower("act")[1] == 'c';
    }
  }

  /** " " then "1" then a non-digit: the white space and number of a worked example. */
  lemma OneSpaceOneDigit(post: string)
    requires |post| >= 1 && post[0] in "./"
    ensures IsBlank(" ") && |"1"| >= 1 && AllDigits("1") && !IsDigit(post[0])
  {
  }

  /** "/media/Hamilton Act 1.mkv" read as the match "Act 1" after "/media/Hamilton ". */
  lemma FileNamePieces(path: string, pre: string, act: string, spaces: string, n: string, post: string)
    requires path == "/media/Hamilton Act 1.mkv"
    requires pre == "/media/Hamilton " && act == "Act" && spaces == " " && n == "1" && post == ".mkv"
    ensures path == pre + act + spaces + n + post
    ensures forall k: nat :: k < |pre| ==> !ActAt(pre + act + spaces + n + post, k)
    ensures |act| == 3 && EqualsIgnoreCase(act, "act")
    ensures IsBlank(spaces) && |n| >= 1 && AllDigits(n) && !IsDigit(post[0])
  {
    assert path == pre + act + spaces + n + post;
    forall k: nat | k < |pre| ensures !ActAt(path, k) {
      assert path[k] == pre[k] && path[k + 1] == (pre + "A")[k + 1];
      if k == 5 || k == 8 {
        NoActAtOtherSecondLetter(path, k);
      } else {
        NoActAtOtherLetter(path, k);
      }
    }
    ActIgnoringCase();
    OneSpaceOneDigit(post);
  }

  /** An act number in the file name: "/media/Hamilton Act 1.mkv" gives the show " Act 1",
      the 'a's of "media" and "Hamilton" not being followed by "ct". */
  lemma ActInFileName(show: Option<string>, path: string)
    requires path == "/media/Hamilton Act 1.mkv"
    ensures ShowWithAct(show, path) == Some(show.GetOr("") + " Act 1")
  {
    var pre, act, spaces, n, post := "/media/Hamilton ", "Act", " ", "1", ".mkv";
    FileNamePieces(path, pre, act, spaces, n, post);
    ActSuffixFromPath(show, pre, act, spaces, n, post);
    var shown := show.GetOr("");
    assert shown + " Act " + n == shown + " Act 1";
  }

  /** Text before the match without any 'a' or 'A' holds no earlier match. */
  lemma NoActBefore(pre: string, path: string)
    requires 'a' !in pre && 'A' !in pre && |pre| <= |path| && path[..|pre|] == pre
    ensures forall k: nat :: k < |pre| ==> !ActAt(path, k)
  {
    forall k: nat | k < |pre| ensures !ActAt(path, k) {
      assert path[k] == pre[k];
      NoActAtOtherLetter(path, k);
    }
  }

  /** "/rec/Contact 1/show.mkv" read as the match "act 1" after "/rec/Cont". */
  lemma DirectoryNamePieces(path: string, pre: string, act: string, spaces: string, n: string, post: string)
    requires path == "/rec/Contact 1/show.mkv"
    requires pre == "/rec/Cont" && act == "act" && spaces == " " && n == "1" && post == "/show.mkv"
    ensures path == pre + act + spaces + n + post
    ensures forall k: nat :: k < |pre| ==> !ActAt(pre + act + spaces + n + post, k)
    ensures |act| == 3 && EqualsIgnoreCase(act, "act")
    ensures IsBlank(spaces) && |n| >= 1 && AllDigits(n) && !IsDigit(post[0])
  {
    assert path == pre + act + spaces + n + post;
    assert path[..|pre|] == pre;
    NoActBefore(pre, path);
    OneSpaceOneDigit(post);
    assert EqualsIgnoreCase(act, "act");
  }

  /** The whole media path is searched, directories included: a directory named
      "Contact 1" gives the show " Act 1". */
  lemma ActInDirectoryName(show: Option<string>, path: string)
    requires path == "/rec/Contact 1/show.mkv"
    ensures ShowWithAct(show, path) == Some(show.GetOr("") + " Act 1")
  {
    var pre, act, spaces, n, post := "/rec/Cont", "act", " ", "1", "/show.mkv";
    DirectoryNamePieces(path, pre, act, spaces, n, post);
    ActSuffixFromPath(show, pre, act, spaces, n, post);
    var shown := show.GetOr("");
    assert shown + " Act " + n == shown + " Act 1";
  }

  // ---------------------------------------------------------------------------
  // Worked example

  /** The date 2024-12-31, fully known and without variant or time, renders as
      "December 31, 2024". */
  lemma WickedDateStrings(date: EncoraDate, replace: string)
    requires date.fullDate == Some("2024-12-31") && date.monthKnown && date.dayKnown
    requires date.dateVariant.None? && date.time.None?
    ensures DateStringsOf(Some(date), replace)
      == Ok(Some(Renderings(DateParts("2024", "12", "31"), "December 31, 2024", "")))
  {
    WickedRenderings(date, replace);
    WickedLongDate();
    assert VariantSuffix(date) + MatineeSuffix(date) == "";
  }

  lemma WickedRenderings(date: EncoraDate, replace: string)
    requires date.fullDate == Some("2024-12-31") && date.monthKnown && date.dayKnown
    ensures DateStringsOf(Some(date), replace)
      == Ok(Some(Renderings(DateParts("2024", "12", "31"),
                            MonthNames[12 - 1] + " " + IntToString(31) + ", " + Year4(2024),
                            VariantSuffix(date) + MatineeSuffix(date))))
  {
    assert date.fullDate == Some("2024" + "-" + "12" + "-" + "31") by {
      assert "2024-12-31" == "2024" + "-" + "12" + "-" + "31";
    }
    WickedValid();
    WickedParses();
    FullDateRenderings(date, replace, "2024", "12", "31", 2024, 12, 31);
  }

  lemma WickedLongDate()
    ensures MonthNames[11] + " " + IntToString(31) + ", " + Year4(2024) == "December 31, 2024"
  {
    WickedTexts();
    assert Year4(2024) == "2024";
    assert MonthNames[11] == "December";
  }

  lemma WickedValid()
    ensures IsValidDate(2024, 12, 31)
    ensures AllDigits("2024") && AllDigits("12") && AllDigits("31")
  {
  }

  lemma WickedTexts()
    ensures IntToString(2024) == "2024" && IntToString(12) == "12" && IntToString(31) == "31"
  {
    assert NatToString(2) == "2" && NatToString(20) == "20" && NatToString(202) == "202";
    assert NatToString(1) == "1";
    assert NatToString(3) == "3";
  }

  lemma WickedParses()
    ensures TryParseInt32(Some("2024")) == Some(2024)
    ensures TryParseInt32(Some("12")) == Some(12)
    ensures TryParseInt32(Some("31")) == Some(31)
  {
    WickedTexts();
    ParseIntToString(2024);
    ParseIntToString(12);
    ParseIntToString(31);
  }

  /** The default title of the example, already trimmed. */
  lemma WickedTitle()
    ensures Trim("Wicked" + " - " + "December 31, 2024") == "Wicked - December 31, 2024"
  {
    var title := "Wicked - December 31, 2024";
    assert "Wicked" + " - " + "December 31, 2024" == title;
    assert title[0] == 'W' && title[|title| - 1] == '4';
    TrimTrimmed(title);
  }

  /** The show "Wicked" on 2024-12-31 (see `WickedDateStrings`) with the default
      template gives "Wicked - December 31, 2024" for any path without an act match. */
  lemma WickedExample(path: string, recording: EncoraRecording)
    requires recording.show == Some("Wicked")
    requires forall k: nat :: k < |path| ==> !ActAt(path, k)
    ensures RenderTitle("{show} - {date}", path, recording,
      Some(Renderings(DateParts("2024", "12", "31"), "December 31, 2024", "")))
      == "Wicked - December 31, 2024"
  {
    var dates := Some(Renderings(DateParts("2024", "12", "31"), "December 31, 2024", ""));
    assert RenderTitle("{show} - {date}", path, recording, dates)
      == Trim("Wicked" + " - " + "December 31, 2024") by {
      assert dates.value.long == "December 31, 2024";
      NoActInPath(Some("Wicked"), path);
      DefaultTemplate(path, recording, dates, "Wicked", "December 31, 2024");
    }
    WickedTitle();
  }
}
