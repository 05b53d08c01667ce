/** The popup's derivations from a device record (popup.js:77-79, 436-533):
    severity tiers, array and source-name formatting, relative times, the
    vulnerability summary, the list-view location, and the derived source-status
    list of observed sources followed by the unobserved ones. */
module Display {
  import opened Wrappers
  import opened Strings
  import opened JsValues
  import DeviceSearch

  // ---------------------------------------------------------------- severity

  /** `getSeverityColor`: red from 7.0, orange from 4.0, yellow below. */
  function SeverityColor(severity: real): (color: string)
    ensures color == "#ff4444" <==> severity >= 7.0
    ensures color == "#ffa500" <==> 4.0 <= severity < 7.0
    ensures color == "#ffd700" <==> severity < 4.0
  {
    if severity >= 7.0 then "#ff4444"
    else if severity >= 4.0 then "#ffa500"
    else "#ffd700"
  }

  /** `getSeverityText`: High from 7.0, Medium from 4.0, Low below. */
  function SeverityText(severity: real): (text: string)
    ensures text == "High" <==> severity >= 7.0
    ensures text == "Medium" <==> 4.0 <= severity < 7.0
    ensures text == "Low" <==> severity < 4.0
  {
    if severity >= 7.0 then "High"
    else if severity >= 4.0 then "Medium"
    else "Low"
  }

  function TierRank(text: string): nat {
    if text == "High" then 2 else if text == "Medium" then 1 else 0
  }

  /** The two functions always pick the same tier. */
  lemma SeverityAgree(severity: real)
    ensures (SeverityText(severity), SeverityColor(severity))
      in {("High", "#ff4444"), ("Medium", "#ffa500"), ("Low", "#ffd700")}
  {
  }

  /** A higher severity never gets a lower tier. */
  lemma SeverityMonotone(a: real, b: real)
    requires a <= b
    ensures TierRank(SeverityText(a)) <= TierRank(SeverityText(b))
  {
  }

  // ---------------------------------------------------------------- formatArray

  /** `formatArray`: nothing for a falsy value or an empty array, the elements
      joined with ", " for an array, and `String(value)` otherwise. */
  function FormatArray(value: Json): (r: Option<string>)
    ensures r.None? <==> !Truthy(value) || value == JArr([])
    ensures Truthy(value) && !value.JArr? ==> r == Some(ToText(value))
    ensures value.JArr? && value.items != [] ==> r == Some(Join(ElementTexts(value.items), ", "))
  {
    if !Truthy(value) then None
    else if value.JArr? then
      if |value.items| > 0 then Some(Join(ElementTexts(value.items), ", ")) else None
    else Some(ToText(value))
  }

  /** Comma-free strings joined with ", " contain a comma exactly when there are
      at least two of them: the test behind the "IP Address(es)" label. */
  lemma {:induction false} JoinedCommaFree(ts: seq<string>)
    requires forall i :: 0 <= i < |ts| ==> ',' !in ts[i]
    ensures (',' in Join(ts, ", ")) <==> |ts| > 1
  {
    if |ts| > 1 {
      var j := Join(ts, ", ");
      assert j == ts[0] + ", " + Join(ts[1..], ", ");
      assert j[|ts[0]|] == ',';
    } else if |ts| == 1 {
      assert Join(ts, ", ") == ts[0];
    }
  }

  /** For an array of comma-free strings the formatted list has a comma exactly
      when the array holds more than one address. */
  lemma FormatArrayPlural(xs: seq<string>)
    requires xs != []
    requires forall i :: 0 <= i < |xs| ==> ',' !in xs[i]
    ensures var r := FormatArray(JArr(seq(|xs|, i requires 0 <= i < |xs| => JStr(xs[i]))));
      r.Some? && ((',' in r.value) <==> |xs| > 1)
  {
    var items := seq(|xs|, i requires 0 <= i < |xs| => JStr(xs[i]));
    var ts := ElementTexts(items);
    forall i | 0 <= i < |ts| ensures ts[i] == xs[i] {
      assert items[i] == JStr(xs[i]);
      assert ElementText(items[i]) == ToText(JStr(xs[i])) == xs[i];
    }
    JoinedCommaFree(ts);
  }

  // ---------------------------------------------------------------- source names

  /** `word.charAt(0).toUpperCase() + word.slice(1)`. */
  function Capitalize(w: string): (c: string)
    ensures |c| == |w|
  {
    if w == [] then [] else [UpperAscii(w[0])] + w[1..]
  }

  function CapitalizeAll(ws: seq<string>): (cs: seq<string>)
    ensures |cs| == |ws| && forall i :: 0 <= i < |ws| ==> cs[i] == Capitalize(ws[i])
  {
    seq(|ws|, i requires 0 <= i < |ws| => Capitalize(ws[i]))
  }

  /** `sourceId.split('-').map(capitalize).join(' ')`. */
  function TitleCase(s: string): string {
    Join(CapitalizeAll(Split(s, '-')), " ")
  }

  /** Reference definition, character by character: a hyphen becomes a space,
      the first character of each hyphen-separated word is upper-cased, and
      every other character is kept. `atStart` says a word begins here. */
  function Titled(s: string, atStart: bool): (r: string)
    ensures |r| == |s|
  {
    if s == [] then []
    else if s[0] == '-' then [' '] + Titled(s[1..], true)
    else [if atStart then UpperAscii(s[0]) else s[0]] + Titled(s[1..], false)
  }

  /** What `Titled` puts at position `i`. */
  function TitledChar(s: string, atStart: bool, i: nat): char
    requires i < |s|
  {
    if s[i] == '-' then ' '
    else if (i == 0 && atStart) || (i > 0 && s[i - 1] == '-') then UpperAscii(s[i])
    else s[i]
  }

  /** Each character of the formatted name follows from the id's character at
      the same position and the one before it. */
  lemma {:induction false} TitledAt(s: string, atStart: bool, i: nat)
    requires i < |s|
    ensures Titled(s, atStart)[i] == TitledChar(s, atStart, i)
  {
    if i > 0 {
      TitledAt(s[1..], s[0] == '-', i - 1);
      assert s[1..][i - 1] == s[i];
      if i > 1 {
        assert s[1..][i - 2] == s[i - 1];
      }
    }
  }

  /** Spaces and capitalised words after the first word of a split. */
  function CapTail(ps: seq<string>): string {
    if ps == [] then "" else " " + Capitalize(ps[0]) + CapTail(ps[1..])
  }

  lemma {:induction false} JoinCapitalized(ps: seq<string>)
    requires ps != []
    ensures Join(CapitalizeAll(ps), " ") == Capitalize(ps[0]) + CapTail(ps[1..])
  {
    if |ps| > 1 {
      JoinCapitalized(ps[1..]);
      assert CapitalizeAll(ps)[1..] == CapitalizeAll(ps[1..]);
      assert CapTail(ps[1..]) == " " + Capitalize(ps[1..][0]) + CapTail(ps[1..][1..]);
    }
  }

  lemma {:induction false} TitledSplit(s: string)
    ensures var ps := Split(s, '-');
      Titled(s, false) == ps[0] + CapTail(ps[1..])
      && Titled(s, true) == Capitalize(ps[0]) + CapTail(ps[1..])
  {
    if s != [] {
      TitledSplit(s[1..]);
      var rest := Split(s[1..], '-');
      if s[0] == '-' {
        assert Split(s, '-') == [""] + rest;
        assert ([""] + rest)[1..] == rest;
        assert CapTail(rest) == " " + Capitalize(rest[0]) + CapTail(rest[1..]);
      } else {
        var ps := Split(s, '-');
        assert ps == [[s[0]] + rest[0]] + rest[1..];
        assert ps[1..] == rest[1..];
        assert Capitalize(ps[0]) == [UpperAscii(s[0])] + rest[0];
      }
    }
  }

  /** The split-map-join of the original equals the character-wise reference. */
  lemma TitleCaseIsTitled(s: string)
    ensures TitleCase(s) == Titled(s, true)
  {
    JoinCapitalized(Split(s, '-'));
    TitledSplit(s);
  }

  /** Ids that `formatSourceName` can handle: falsy ones and strings (any other
      truthy value has no `split` and throws). */
  predicate UsableSourceId(id: Json) {
    !Truthy(id) || id.JStr?
  }

  /** `formatSourceName`: "Unknown" for a falsy id, otherwise the id with its
      hyphens turned into spaces and each word's first letter upper-cased. */
  function FormatSourceName(id: Json): (name: string)
    requires UsableSourceId(id)
    ensures !Truthy(id) ==> name == "Unknown"
    ensures Truthy(id) ==> |name| == |id.s|
  {
    if !Truthy(id) then "Unknown"
    else
      TitleCaseIsTitled(id.s);
      TitleCase(id.s)
  }

  /** Each character of a formatted name: a hyphen becomes a space, the first
      character and every character after a hyphen are upper-cased, and every
      other character is kept. */
  lemma SourceNameChars(id: Json)
    requires Truthy(id) && id.JStr?
    ensures var name := FormatSourceName(id);
      forall i :: 0 <= i < |id.s| ==> name[i] == TitledChar(id.s, true, i)
  {
    TitleCaseIsTitled(id.s);
    forall i | 0 <= i < |id.s| ensures Titled(id.s, true)[i] == TitledChar(id.s, true, i) {
      TitledAt(id.s, true, i);
    }
  }

  /** The formatted name keeps the length, has no hyphen left, and has one more
      space for every hyphen of the id. */
  lemma {:induction false} TitledCounts(s: string, atStart: bool)
    ensures |Titled(s, atStart)| == |s|
    ensures Count(Titled(s, atStart), '-') == 0
    ensures Count(Titled(s, atStart), ' ') == Count(s, ' ') + Count(s, '-')
  {
    if s != [] {
      var r := Titled(s, atStart);
      TitledCounts(s[1..], s[0] == '-');
      assert r[1..] == Titled(s[1..], s[0] == '-');
    }
  }

  /** A formatted name has no hyphen, and its spaces are the id's spaces plus
      one for each hyphen. */
  lemma SourceNameCounts(id: Json)
    requires Truthy(id) && id.JStr?
    ensures Count(FormatSourceName(id), '-') == 0
    ensures Count(FormatSourceName(id), ' ') == Count(id.s, ' ') + Count(id.s, '-')
  {
    TitleCaseIsTitled(id.s);
    TitledCounts(id.s, true);
  }

  // ---------------------------------------------------------------- relative time

  datatype TimeUnit = Second | Minute | Hour | Day | Month | Year

  const MsPerDay := 86_400_000

  /** Milliseconds in one unit, a month being 30 days and a year 365. */
  function UnitMillis(u: TimeUnit): nat {
    match u
    case Second => 1000
    case Minute => 60_000
    case Hour => 3_600_000
    case Day => MsPerDay
    case Month => 30 * MsPerDay
    case Year => 365 * MsPerDay
  }

  function UnitRank(u: TimeUnit): nat {
    match u
    case Second => 0
    case Minute => 1
    case Hour => 2
    case Day => 3
    case Month => 4
    case Year => 5
  }

  datatype Elapsed = Elapsed(value: int, unit: TimeUnit)

  /** The unit and count `formatTimeAgo` reports for a difference of `diffMs`
      milliseconds: the first of years, months, days, hours and minutes whose
      floored count is positive, else seconds. */
  function ElapsedSince(diffMs: int): (e: Elapsed)
    ensures e.value == diffMs / UnitMillis(e.unit)
    ensures e.unit != Second ==> e.value >= 1
    ensures e.unit == Year <==> diffMs >= UnitMillis(Year)
    ensures e.unit == Month <==> UnitMillis(Month) <= diffMs < UnitMillis(Year)
    ensures e.unit == Day <==> UnitMillis(Day) <= diffMs < UnitMillis(Month)
    ensures e.unit == Hour <==> UnitMillis(Hour) <= diffMs < UnitMillis(Day)
    ensures e.unit == Minute <==> UnitMillis(Minute) <= diffMs < UnitMillis(Hour)
    ensures e.unit == Second <==> diffMs < UnitMillis(Minute)
  {
    var seconds := diffMs / 1000;
    var minutes := seconds / 60;
    var hours := minutes / 60;
    var days := hours / 24;
    var months := days / 30;
    var years := days / 365;
    FloorChain(diffMs);
    if years > 0 then Elapsed(years, Year)
    else if months > 0 then Elapsed(months, Month)
    else if days > 0 then Elapsed(days, Day)
    else if hours > 0 then Elapsed(hours, Hour)
    else if minutes > 0 then Elapsed(minutes, Minute)
    else Elapsed(seconds, Second)
  }

  /** The successive floors of `formatTimeAgo` are floors of the millisecond
      difference by each unit's length. */
  lemma FloorChain(diffMs: int)
    ensures diffMs / 1000 / 60 == diffMs / 60_000
    ensures diffMs / 1000 / 60 / 60 == diffMs / 3_600_000
    ensures diffMs / 1000 / 60 / 60 / 24 == diffMs / MsPerDay
    ensures diffMs / 1000 / 60 / 60 / 24 / 30 == diffMs / (30 * MsPerDay)
    ensures diffMs / 1000 / 60 / 60 / 24 / 365 == diffMs / (365 * MsPerDay)
  {
  }

  /** A longer time never reports a smaller unit. */
  lemma ElapsedMonotone(a: int, b: int)
    requires a <= b
    ensures UnitRank(ElapsedSince(a).unit) <= UnitRank(ElapsedSince(b).unit)
  {
  }

  /** The English name of a unit, in the singular. */
  function UnitName(u: TimeUnit): string {
    match u
    case Second => "second"
    case Minute => "minute"
    case Hour => "hour"
    case Day => "day"
    case Month => "month"
    case Year => "year"
  }

  /** The unit's word, in the plural unless `singular`. */
  function UnitWord(u: TimeUnit, singular: bool): (w: string)
    ensures w == UnitName(u) + (if singular then "" else "s")
    ensures w != [] && (w[|w| - 1] == 's' <==> !singular)
  {
    match u
    case Second => if singular then "second" else "seconds"
    case Minute => if singular then "minute" else "minutes"
    case Hour => if singular then "hour" else "hours"
    case Day => if singular then "day" else "days"
    case Month => if singular then "month" else "months"
    case Year => if singular then "year" else "years"
  }

  /** `formatTimeAgo` for a difference of `diffMs` milliseconds between now and
      the timestamp: "<count> <unit> ago", singular exactly for a count of 1. */
  function FormatTimeAgo(diffMs: int): (text: string)
    ensures var e := ElapsedSince(diffMs); var c := IntToString(e.value);
      |text| >= |c| + 6 && text[..|c|] == c && text[|c|] == ' ' && text[|text| - 4..] == " ago"
      && (text[|text| - 5] == 's' <==> e.value != 1)
      && text[|c| + 1..|text| - 4] == UnitWord(e.unit, e.value == 1)
  {
    var e := ElapsedSince(diffMs);
    IntToString(e.value) + " " + UnitWord(e.unit, e.value == 1) + " ago"
  }

  /** Just under a minute is still counted in seconds, in the plural. */
  lemma TimeAgoBelowMinute()
    ensures FormatTimeAgo(59_999) == "59 seconds ago"
  {
    assert ElapsedSince(59_999) == Elapsed(59, Second);
    assert NatToString(5) == "5" && NatToString(59) == NatToString(5) + "9";
  }

  /** Exactly one minute is "1 minute", in the singular. */
  lemma TimeAgoOneMinute()
    ensures FormatTimeAgo(60_000) == "1 minute ago"
  {
    assert ElapsedSince(60_000) == Elapsed(1, Minute);
    assert IntToString(1) == "1";
  }

  /** A day and a half is floored to one day. */
  lemma TimeAgoDayAndHalf()
    ensures FormatTimeAgo(MsPerDay + MsPerDay / 2) == "1 day ago"
  {
    assert ElapsedSince(MsPerDay + MsPerDay / 2) == Elapsed(1, Day);
    assert IntToString(1) == "1";
  }

  /** Sixty days are two months. */
  lemma TimeAgoTwoMonths()
    ensures FormatTimeAgo(60 * MsPerDay) == "2 months ago"
  {
    assert ElapsedSince(60 * MsPerDay) == Elapsed(2, Month);
    assert IntToString(2) == "2";
  }

  // ---------------------------------------------------------------- vulnerabilities

  datatype Vulnerabilities = Vulnerabilities(count: nat, items: seq<Json>)

  /** `extractVulnerabilities`: the `exp_vulns` array passed through with its
      length, or an empty summary when it is missing or not an array. */
  function ExtractVulnerabilities(device: Record): (v: Vulnerabilities)
    ensures v.count == |v.items|
    ensures Field(device, "exp_vulns").JArr? ==> v.items == Field(device, "exp_vulns").items
    ensures !Field(device, "exp_vulns").JArr? ==> v.items == []
  {
    var vulns := Field(device, "exp_vulns");
    if Truthy(vulns) && vulns.JArr? then Vulnerabilities(|vulns.items|, vulns.items)
    else Vulnerabilities(0, [])
  }

  /** The summary of a flattened record is the raw item's own `exp_vulns`,
      whatever its attributes say. */
  lemma VulnerabilitiesPassThrough(item: Json, allSources: seq<Json>)
    ensures var raw := Get(item, "exp_vulns");
      ExtractVulnerabilities(DeviceSearch.FlatRecord(item, allSources))
        == if raw.JArr? then Vulnerabilities(|raw.items|, raw.items) else Vulnerabilities(0, [])
  {
    assert "exp_vulns" in DeviceSearch.ItemKeys;
  }

  // ---------------------------------------------------------------- location

  /** The template of the device list before trimming: city, then ", " when both
      are truthy, then country. */
  function LocationLine(geo: Json): string {
    var city, country := Get(geo, "city"), Get(geo, "country");
    (if Truthy(city) then ToText(city) else "")
      + (if Truthy(city) && Truthy(country) then ", " else "")
      + (if Truthy(country) then ToText(country) else "")
  }

  /** The location line of the device list: city and country joined by ", "
      when both are present, trimmed, and "Unknown" when nothing is left. */
  function ListLocation(device: Record): (loc: string)
    ensures loc != []
    ensures !Truthy(Field(device, "geo_ip")) ==> loc == "Unknown"
    ensures Truthy(Field(device, "geo_ip")) && Trim(LocationLine(Field(device, "geo_ip"))) != [] ==>
      loc == Trim(LocationLine(Field(device, "geo_ip")))
    ensures Truthy(Field(device, "geo_ip")) && Trim(LocationLine(Field(device, "geo_ip"))) == [] ==>
      loc == "Unknown"
  {
    var geo := Field(device, "geo_ip");
    if !Truthy(geo) then "Unknown"
    else
      var t := Trim(LocationLine(geo));
      if t == [] then "Unknown" else t
  }

  /** A place name with no whitespace at either end. */
  predicate Tidy(s: string) {
    s != [] && !IsJsWhitespace(s[0]) && !IsJsWhitespace(s[|s| - 1])
  }

  /** With a tidy city and country the line is "City, Country". */
  lemma ListLocationBoth(device: Record, city: string, country: string)
    requires Tidy(city) && Tidy(country)
    ensures ListLocation(device["geo_ip" := JObj(map["city" := JStr(city), "country" := JStr(country)])])
      == city + ", " + country
  {
    var geo := JObj(map["city" := JStr(city), "country" := JStr(country)]);
    var both := city + ", " + country;
    assert Get(geo, "city") == JStr(city) && Get(geo, "country") == JStr(country);
    assert LocationLine(geo) == both;
    assert both[0] == city[0] && both[|both| - 1] == country[|country| - 1];
    TrimOfTrimmed(both);
  }

  /** With a tidy city alone the line is the city, with no separator. */
  lemma ListLocationCityOnly(device: Record, city: string)
    requires Tidy(city)
    ensures ListLocation(device["geo_ip" := JObj(map["city" := JStr(city)])]) == city
  {
    var geo := JObj(map["city" := JStr(city)]);
    assert Get(geo, "city") == JStr(city) && Get(geo, "country") == JUndefined;
    assert LocationLine(geo) == city;
    TrimOfTrimmed(city);
  }

  /** With a tidy country alone the line is the country. */
  lemma ListLocationCountryOnly(device: Record, country: string)
    requires Tidy(country)
    ensures ListLocation(device["geo_ip" := JObj(map["country" := JStr(country)])]) == country
  {
    var geo := JObj(map["country" := JStr(country)]);
    assert Get(geo, "city") == JUndefined && Get(geo, "country") == JStr(country);
    assert LocationLine(geo) == country;
    TrimOfTrimmed(country);
  }

  // ---------------------------------------------------------------- sources

  /** What the popup shows for one source. */
  datatype SourceStatus = SourceStatus(sourceId: Json, name: string, observed: bool, status: string)

  /** `x && Array.isArray(x) ? x : []` (an array is always truthy). */
  function ArrayOrEmpty(j: Json): seq<Json> {
    if j.JArr? then j.items else []
  }

  function ObservedList(device: Record): seq<Json> {
    ArrayOrEmpty(Field(device, "sources"))
  }

  function AllSourceList(device: Record): seq<Json> {
    ArrayOrEmpty(Field(device, "all_sources"))
  }

  /** What `extractSources` needs to run without throwing: no `null` entry in
      `sources`, and source ids that are strings or falsy. */
  predicate Extractable(device: Record) {
    var obs, all := ObservedList(device), AllSourceList(device);
    (forall s :: s in obs ==> !Nullish(s) && UsableSourceId(Get(s, "source")))
    && (forall x :: x in all ==> UsableSourceId(x))
  }

  /** The entry for a source that observed the device. `elapsed` gives the
      milliseconds between now and a timestamp (the clock and date parsing). */
  function ObservedStatus(source: Json, elapsed: Json -> int): (st: SourceStatus)
    requires UsableSourceId(Get(source, "source"))
    ensures st.observed && st.sourceId == Get(source, "source")
    ensures st.name == FormatSourceName(Get(source, "source"))
    ensures var last := Get(source, "last_activity_timestamp");
      st.status == "Last activity " + (if Truthy(last) then FormatTimeAgo(elapsed(last)) else "Unknown")
  {
    var id := Get(source, "source");
    var last := Get(source, "last_activity_timestamp");
    var timeAgo := if Truthy(last) then FormatTimeAgo(elapsed(last)) else "Unknown";
    SourceStatus(id, FormatSourceName(id), true, "Last activity " + timeAgo)
  }

  /** The entry for a configured source that did not observe the device. */
  function UnobservedStatus(id: Json): (st: SourceStatus)
    requires UsableSourceId(id)
    ensures !st.observed && st.sourceId == id && st.status == "Not observed"
    ensures st.name == FormatSourceName(id)
  {
    SourceStatus(id, FormatSourceName(id), false, "Not observed")
  }

  /** The ids of the observed sources. */
  function ObservedIds(obs: seq<Json>): (ids: set<Json>)
    ensures forall i :: 0 <= i < |obs| ==> Get(obs[i], "source") in ids
  {
    if obs == [] then {} else ObservedIds(obs[..|obs| - 1]) + {Get(obs[|obs| - 1], "source")}
  }

  function ObservedStatuses(obs: seq<Json>, elapsed: Json -> int): (sts: seq<SourceStatus>)
    requires forall s :: s in obs ==> UsableSourceId(Get(s, "source"))
    ensures |sts| == |obs|
  {
    if obs == [] then []
    else ObservedStatuses(obs[..|obs| - 1], elapsed) + [ObservedStatus(obs[|obs| - 1], elapsed)]
  }

  /** An entry for each id of `all` not in `seen`, in order, duplicates kept. */
  function UnobservedStatuses(all: seq<Json>, seen: set<Json>): (sts: seq<SourceStatus>)
    requires forall x :: x in all ==> UsableSourceId(x)
    ensures |sts| <= |all|
  {
    if all == [] then []
    else
      var last := all[|all| - 1];
      UnobservedStatuses(all[..|all| - 1], seen) + (if last in seen then [] else [UnobservedStatus(last)])
  }

  /** The specification of `extractSources`: every observed source in order,
      then every configured source id that no observed source has. */
  function SourceStatuses(device: Record, elapsed: Json -> int): seq<SourceStatus>
    requires Extractable(device)
  {
    var obs, all := ObservedList(device), AllSourceList(device);
    ObservedStatuses(obs, elapsed) + UnobservedStatuses(all, ObservedIds(obs))
  }

  /** One more observed source appends its entry and adds its id. */
  lemma ObservedStep(obs: seq<Json>, i: nat, elapsed: Json -> int)
    requires i < |obs|
    requires forall s :: s in obs ==> UsableSourceId(Get(s, "source"))
    ensures ObservedIds(obs[..i + 1]) == ObservedIds(obs[..i]) + {Get(obs[i], "source")}
    ensures ObservedStatuses(obs[..i + 1], elapsed) == ObservedStatuses(obs[..i], elapsed) + [ObservedStatus(obs[i], elapsed)]
  {
    assert obs[..i + 1][..i] == obs[..i];
  }

  /** One more configured id appends its entry unless it was observed. */
  lemma UnobservedStep(all: seq<Json>, j: nat, seen: set<Json>)
    requires j < |all|
    requires forall x :: x in all ==> UsableSourceId(x)
    ensures UnobservedStatuses(all[..j + 1], seen) ==
      UnobservedStatuses(all[..j], seen) + (if all[j] in seen then [] else [UnobservedStatus(all[j])])
  {
    assert all[..j + 1][..j] == all[..j];
  }

  /** `extractSources`: builds the list in two passes, collecting the observed
      ids in a set during the first. */
  method ExtractSources(device: Record, elapsed: Json -> int) returns (sources: seq<SourceStatus>)
    requires Extractable(device)
    ensures sources == SourceStatuses(device, elapsed)
  {
    var observedIds;
    sources, observedIds := CollectObserved(ObservedList(device), elapsed);
    sources := AppendUnobserved(AllSourceList(device), observedIds, sources);
  }

  /** The first pass: an entry per observed source, and the set of their ids. */
  method CollectObserved(obs: seq<Json>, elapsed: Json -> int) returns (sources: seq<SourceStatus>, observedIds: set<Json>)
    requires forall s :: s in obs ==> UsableSourceId(Get(s, "source"))
    ensures sources == ObservedStatuses(obs, elapsed)
    ensures observedIds == ObservedIds(obs)
  {
    sources, observedIds := [], {};
    var i := 0;
    while i < |obs|
      invariant 0 <= i <= |obs|
      invariant observedIds == ObservedIds(obs[..i])
      invariant sources == ObservedStatuses(obs[..i], elapsed)
    {
      ObservedStep(obs, i, elapsed);
      observedIds := observedIds + {Get(obs[i], "source")};
      sources := sources + [ObservedStatus(obs[i], elapsed)];
      i := i + 1;
    }
    assert obs[..i] == obs;
  }

  /** The second pass: appends an entry for each configured id not observed. */
  method AppendUnobserved(all: seq<Json>, observedIds: set<Json>, prefix: seq<SourceStatus>)
    returns (sources: seq<SourceStatus>)
    requires forall x :: x in all ==> UsableSourceId(x)
    ensures sources == prefix + UnobservedStatuses(all, observedIds)
  {
    sources := prefix;
    var j := 0;
    while j < |all|
      invariant 0 <= j <= |all|
      invariant sources == prefix + UnobservedStatuses(all[..j], observedIds)
    {
      UnobservedStep(all, j, observedIds);
      if all[j] !in observedIds {
        sources := sources + [UnobservedStatus(all[j])];
      }
      j := j + 1;
    }
    assert all[..j] == all;
  }

  /** The source ids of a list of entries. */
  function IdsOf(sts: seq<SourceStatus>): (ids: seq<Json>)
    ensures |ids| == |sts|
    ensures forall k :: 0 <= k < |sts| ==> ids[k] == sts[k].sourceId
  {
    seq(|sts|, k requires 0 <= k < |sts| => sts[k].sourceId)
  }

  lemma IdsOfAppend(a: seq<SourceStatus>, b: seq<SourceStatus>)
    ensures IdsOf(a + b) == IdsOf(a) + IdsOf(b)
  {
  }

  /** Entry `i` of the observed part is the entry of the `i`th observed source. */
  predicate ObservedAt(obs: seq<Json>, elapsed: Json -> int, i: nat)
    requires forall s :: s in obs ==> UsableSourceId(Get(s, "source"))
    requires i < |obs|
  {
    ObservedStatuses(obs, elapsed)[i] == ObservedStatus(obs[i], elapsed)
  }

  /** The observed part lists the sources in their original order. */
  lemma {:induction false} ObservedStatusesAt(obs: seq<Json>, elapsed: Json -> int)
    requires forall s :: s in obs ==> UsableSourceId(Get(s, "source"))
    ensures forall i :: 0 <= i < |obs| ==> ObservedAt(obs, elapsed, i)
  {
    if obs != [] {
      var n := |obs| - 1;
      var init := obs[..n];
      assert forall s :: s in init ==> s in obs;
      ObservedStatusesAt(init, elapsed);
      var o0 := ObservedStatuses(init, elapsed);
      assert ObservedStatuses(obs, elapsed) == o0 + [ObservedStatus(obs[n], elapsed)];
      forall i | 0 <= i < |obs| ensures ObservedAt(obs, elapsed, i) {
        if i < n {
          assert ObservedAt(init, elapsed, i);
          assert init[i] == obs[i];
        }
      }
    }
  }

  /** The observed id set holds exactly the `source` fields of the observed entries. */
  lemma {:induction false} ObservedIdsExact(obs: seq<Json>, x: Json)
    ensures x in ObservedIds(obs) <==> exists i :: 0 <= i < |obs| && Get(obs[i], "source") == x
  {
    if obs != [] {
      var init := obs[..|obs| - 1];
      ObservedIdsExact(init, x);
      if x in ObservedIds(init) {
        var i :| 0 <= i < |init| && Get(init[i], "source") == x;
        assert Get(obs[i], "source") == x;
      }
    }
  }

  /** The `k`th unobserved entry is a configured id outside `seen`, marked not observed. */
  predicate UnobservedAt(all: seq<Json>, seen: set<Json>, k: nat)
    requires forall x :: x in all ==> UsableSourceId(x)
    requires k < |UnobservedStatuses(all, seen)|
  {
    var st := UnobservedStatuses(all, seen)[k];
    !st.observed && st.status == "Not observed" && st.sourceId in all && st.sourceId !in seen
  }

  /** Each unobserved entry is a configured id outside `seen`, marked not observed. */
  lemma {:induction false} UnobservedEntries(all: seq<Json>, seen: set<Json>)
    requires forall x :: x in all ==> UsableSourceId(x)
    ensures forall k :: 0 <= k < |UnobservedStatuses(all, seen)| ==> UnobservedAt(all, seen, k)
  {
    if all != [] {
      var init, last := all[..|all| - 1], all[|all| - 1];
      assert forall x :: x in init ==> x in all;
      UnobservedEntries(init, seen);
      var u0 := UnobservedStatuses(init, seen);
      var tail := if last in seen then [] else [UnobservedStatus(last)];
      var u := UnobservedStatuses(all, seen);
      assert u == u0 + tail;
      forall k | 0 <= k < |u|
        ensures UnobservedAt(all, seen, k)
      {
        if k < |u0| {
          assert UnobservedAt(init, seen, k);
          assert u[k] == u0[k];
        } else {
          assert last !in seen && tail == [UnobservedStatus(last)];
          assert u[k] == UnobservedStatus(last);
          assert last in all;
        }
      }
    }
  }

  /** Unobserved ids keep their multiplicity: an id outside `seen` appears as
      often as in `all`, duplicates included, and an id in `seen` never appears. */
  lemma {:induction false} UnobservedMultiplicity(all: seq<Json>, seen: set<Json>, x: Json)
    requires forall y :: y in all ==> UsableSourceId(y)
    ensures multiset(IdsOf(UnobservedStatuses(all, seen)))[x] == if x in seen then 0 else multiset(all)[x]
  {
    UnobservedIds(all, seen);
    UnseenMultiplicity(all, seen, x);
  }

  /** The entries of `all` not in `seen`, in order. */
  function Unseen(all: seq<Json>, seen: set<Json>): seq<Json> {
    if all == [] then []
    else Unseen(all[..|all| - 1], seen) + (if all[|all| - 1] in seen then [] else [all[|all| - 1]])
  }

  lemma {:induction false} UnobservedIds(all: seq<Json>, seen: set<Json>)
    requires forall y :: y in all ==> UsableSourceId(y)
    ensures IdsOf(UnobservedStatuses(all, seen)) == Unseen(all, seen)
  {
    if all != [] {
      var init, last := all[..|all| - 1], all[|all| - 1];
      assert forall y :: y in init ==> y in all;
      UnobservedIds(init, seen);
      var u0 := UnobservedStatuses(init, seen);
      var tail := if last in seen then [] else [UnobservedStatus(last)];
      assert UnobservedStatuses(all, seen) == u0 + tail;
      IdsOfAppend(u0, tail);
    }
  }

  lemma {:induction false} UnseenMultiplicity(all: seq<Json>, seen: set<Json>, x: Json)
    ensures multiset(Unseen(all, seen))[x] == if x in seen then 0 else multiset(all)[x]
  {
    if all != [] {
      var init, last := all[..|all| - 1], all[|all| - 1];
      UnseenMultiplicity(init, seen, x);
      assert init + [last] == all;
    }
  }

  /** What `extractSources` returns: the observed sources first, in order and
      marked observed with their `source` id; after them only unobserved,
      configured ids, none of which shares an id with an observed entry. */
  lemma SourceStatusesShape(device: Record, elapsed: Json -> int)
    requires Extractable(device)
    ensures var obs, all, sts := ObservedList(device), AllSourceList(device), SourceStatuses(device, elapsed);
      |obs| <= |sts| <= |obs| + |all|
      && (forall i :: 0 <= i < |obs| ==>
            sts[i] == ObservedStatus(obs[i], elapsed) && sts[i].observed && sts[i].sourceId == Get(obs[i], "source"))
      && (forall k :: |obs| <= k < |sts| ==>
            !sts[k].observed && sts[k].status == "Not observed" && sts[k].sourceId in all)
      && (forall i, k :: 0 <= i < |obs| <= k < |sts| ==> sts[i].sourceId != sts[k].sourceId)
  {
    var obs, all := ObservedList(device), AllSourceList(device);
    var seen := ObservedIds(obs);
    var o, u := ObservedStatuses(obs, elapsed), UnobservedStatuses(all, seen);
    ObservedStatusesAt(obs, elapsed);
    UnobservedEntries(all, seen);
    var sts := o + u;
    forall i | 0 <= i < |obs| ensures sts[i] == ObservedStatus(obs[i], elapsed) {
      assert ObservedAt(obs, elapsed, i);
    }
    forall k | |obs| <= k < |sts|
      ensures !sts[k].observed && sts[k].status == "Not observed" && sts[k].sourceId in all
      ensures sts[k].sourceId !in seen
    {
      assert sts[k] == u[k - |obs|];
      assert UnobservedAt(all, seen, k - |obs|);
    }
  }

  /** The number of unobserved entries with a given id: zero for an observed
      id, otherwise its number of occurrences in `all_sources`. */
  lemma SourceStatusesCount(device: Record, elapsed: Json -> int, x: Json)
    requires Extractable(device)
    ensures var obs, all, sts := ObservedList(device), AllSourceList(device), SourceStatuses(device, elapsed);
      multiset(IdsOf(sts[|obs|..]))[x] ==
        if exists i :: 0 <= i < |obs| && Get(obs[i], "source") == x then 0 else multiset(all)[x]
  {
    var obs, all := ObservedList(device), AllSourceList(device);
    var seen := ObservedIds(obs);
    var o, u := ObservedStatuses(obs, elapsed), UnobservedStatuses(all, seen);
    assert (o + u)[|obs|..] == u;
    ObservedIdsExact(obs, x);
    UnobservedMultiplicity(all, seen, x);
  }
}
