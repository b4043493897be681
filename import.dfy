/** Imports into the CMS: the two placeholder imports, the import of arbitrary
    records through a field mapping, and the conversion of a YouTube video with
    its ISO 8601 duration. The content service's `create` is a parameter here:
    it says whether a mapped record is saved and, when it is not, the message of
    the error it throws. */
module Import {
  import opened Common
  import opened Entities

  datatype ImportResult = ImportResult(success: bool, imported: nat, errors: seq<string>)

  // ---------------------------------------------------------------- placeholders

  const YouTubePending := "YouTube import not yet implemented"
  const SpotifyPending := "Spotify import not yet implemented"

  /** `importFromYouTube`: the result starts unsuccessful with the pending
      note, and the `try` block then marks it successful; nothing can throw. */
  method ImportFromYouTube(channelId: string, apiKey: string) returns (r: ImportResult)
    ensures r.success && r.imported == 0 && r.errors == [YouTubePending]
  {
    r := ImportResult(false, 0, [YouTubePending]);
    r := r.(success := true);
  }

  /** `importFromSpotify`: the same placeholder with its own note. */
  method ImportFromSpotify(playlistId: string, clientId: string, clientSecret: string) returns (r: ImportResult)
    ensures r.success && r.imported == 0 && r.errors == [SpotifyPending]
  {
    r := ImportResult(false, 0, [SpotifyPending]);
    r := r.(success := true);
  }

  // ---------------------------------------------------------------- durations

  /** A capture of `\d+`: absent, or a non-empty run of digits. */
  predicate Captured(c: Option<string>)
  {
    c.Some? ==> c.value != [] && AllDigits(c.value)
  }

  /** One optional group `(?:(\d+)X)?` matched at the start of `s`. The digit
      run is greedy and a shorter run is followed by a digit, so the group
      matches exactly when the longest run is followed by the designator `X`;
      the result is the capture and what follows the group. */
  function Group(s: string, designator: char): (g: (Option<string>, string))
    requires !IsDigit(designator)
    ensures Captured(g.0)
    ensures g.0.Some? ==> s == g.0.value + [designator] + g.1
    ensures g.0.None? ==> g.1 == s
  {
    var d := DigitPrefix(s);
    if d != [] && |d| < |s| && s[|d|] == designator then
      assert s == d + [designator] + s[|d| + 1..];
      (Some(d), s[|d| + 1..])
    else
      (None, s)
  }

  /** The three optional groups read one after the other from `s`. */
  function Groups(s: string): (r: (Option<string>, Option<string>, Option<string>))
    ensures Captured(r.0) && Captured(r.1) && Captured(r.2)
  {
    var afterH := Group(s, 'H');
    var afterM := Group(afterH.1, 'M');
    var afterS := Group(afterM.1, 'S');
    (afterH.0, afterM.0, afterS.0)
  }

  /** The captures of `/PT(?:(\d+)H)?(?:(\d+)M)?(?:(\d+)S)?/` at its leftmost
      match. The pattern is not anchored and every group is optional, so it
      matches at the first `PT` of the text, and no later group can fail and
      make an earlier one give back what it took. */
  function DurationMatch(duration: string): (r: Option<(Option<string>, Option<string>, Option<string>)>)
    ensures r.Some? <==> exists j :: 0 <= j <= |duration| && StartsWith(duration[j..], "PT")
    ensures r.Some? ==> Captured(r.value.0) && Captured(r.value.1) && Captured(r.value.2)
  {
    match IndexOf(duration, "PT")
    case None => None
    case Some(k) =>
      assert duration[k..][..2] == duration[k..k + 2];
      Some(Groups(duration[k + 2..]))
  }

  /** `parseInt(match[i] || '0')`. */
  function CaptureValue(c: Option<string>): (n: nat)
    requires Captured(c)
    ensures c.None? ==> n == 0
    ensures c.Some? ==> n == DigitsValue(c.value)
  {
    var text := if c.Some? then c.value else "0";
    assert DigitsValue("0") == 0;
    ParseIntDigits(text);
    ParseInt(text).value
  }

  /** `parseYouTubeDuration`: hours, minutes and seconds of the match in
      seconds, and 0 when the text has no match. */
  function ParseYouTubeDuration(duration: string): nat
  {
    match DurationMatch(duration)
    case None => 0
    case Some(groups) =>
      CaptureValue(groups.0) * 3600 + CaptureValue(groups.1) * 60 + CaptureValue(groups.2)
  }

  /** A text in which `PT` never occurs lasts 0 seconds. */
  lemma NoMatchIsZero(duration: string)
    requires forall j :: 0 <= j <= |duration| ==> !StartsWith(duration[j..], "PT")
    ensures ParseYouTubeDuration(duration) == 0
  {
    assert DurationMatch(duration).None?;
  }

  /** One designated component of an ISO 8601 duration, or nothing. */
  function Component(n: Option<nat>, designator: char): string
  {
    if n.Some? then ShowNat(n.value) + [designator] else ""
  }

  /** `PT[nH][nM][nS]`, the form in which the YouTube API writes durations
      shorter than a day. */
  function IsoDuration(h: Option<nat>, m: Option<nat>, s: Option<nat>): string
  {
    "PT" + Component(h, 'H') + Component(m, 'M') + Component(s, 'S')
  }

  function OrZero(n: Option<nat>): nat
  {
    if n.Some? then n.value else 0
  }

  /** A group reads its own component back and leaves the rest of the text;
      an absent component leaves the text as it is, provided the text does not
      itself open with a group of the same designator. */
  lemma GroupOfComponent(n: Option<nat>, designator: char, rest: string)
    requires !IsDigit(designator)
    requires n.None? ==> Group(rest, designator).0.None?
    ensures Group(Component(n, designator) + rest, designator).1 == rest
    ensures Group(Component(n, designator) + rest, designator).0 ==
      (if n.Some? then Some(ShowNat(n.value)) else None)
  {
    if n.Some? {
      var d := ShowNat(n.value);
      var s := Component(n, designator) + rest;
      assert s == d + ([designator] + rest);
      DigitPrefixOf(d, [designator] + rest);
      assert s[|d|] == designator;
      assert s[|d| + 1..] == rest;
    } else {
      assert Component(n, designator) + rest == rest;
    }
  }

  /** A component never opens a group of another designator. */
  lemma ComponentNotOther(n: Option<nat>, designator: char, other: char, rest: string)
    requires !IsDigit(designator) && !IsDigit(other) && designator != other
    requires n.None? ==> Group(rest, other).0.None?
    ensures Group(Component(n, designator) + rest, other).0.None?
  {
    if n.Some? {
      var d := ShowNat(n.value);
      var s := Component(n, designator) + rest;
      assert s == d + ([designator] + rest);
      DigitPrefixOf(d, [designator] + rest);
      assert s[|d|] == designator;
    } else {
      assert Component(n, designator) + rest == rest;
    }
  }

  /** The capture a component leaves. */
  function CaptureOf(n: Option<nat>): Option<string>
  {
    if n.Some? then Some(ShowNat(n.value)) else None
  }

  /** The groups read back each component's digits. */
  lemma GroupsOfComponents(h: Option<nat>, m: Option<nat>, s: Option<nat>)
    ensures Groups(Component(h, 'H') + Component(m, 'M') + Component(s, 'S')) ==
      (CaptureOf(h), CaptureOf(m), CaptureOf(s))
  {
    var ms := Component(m, 'M') + Component(s, 'S');
    assert Component(s, 'S') + "" == Component(s, 'S');
    assert Component(h, 'H') + Component(m, 'M') + Component(s, 'S') == Component(h, 'H') + ms;
    ComponentNotOther(s, 'S', 'H', "");
    ComponentNotOther(m, 'M', 'H', Component(s, 'S'));
    GroupOfComponent(h, 'H', ms);
    ComponentNotOther(s, 'S', 'M', "");
    GroupOfComponent(m, 'M', Component(s, 'S'));
    GroupOfComponent(s, 'S', "");
  }

  /** A text that opens with `PT` is matched at its start. */
  lemma OpensWithPT(rest: string)
    ensures IndexOf("PT" + rest, "PT") == Some(0)
    ensures ("PT" + rest)[2..] == rest
  {
    assert StartsWith("PT" + rest, "PT");
  }

  /** A rendered duration opens with `PT`, followed by its components. */
  lemma IsoOpensWithPT(h: Option<nat>, m: Option<nat>, s: Option<nat>)
    ensures IndexOf(IsoDuration(h, m, s), "PT") == Some(0)
    ensures IsoDuration(h, m, s)[2..] == Component(h, 'H') + Component(m, 'M') + Component(s, 'S')
  {
    var rest := Component(h, 'H') + Component(m, 'M') + Component(s, 'S');
    assert IsoDuration(h, m, s) == "PT" + rest;
    OpensWithPT(rest);
  }

  /** The pattern matches a rendered duration at its start and captures each
      component's digits. */
  lemma MatchOfIso(h: Option<nat>, m: Option<nat>, s: Option<nat>)
    ensures DurationMatch(IsoDuration(h, m, s)) == Some((CaptureOf(h), CaptureOf(m), CaptureOf(s)))
  {
    IsoOpensWithPT(h, m, s);
    GroupsOfComponents(h, m, s);
  }

  /** Parsing a rendered duration gives 3600 H + 60 M + S, each missing
      component counting 0. */
  lemma DurationRoundTrip(h: Option<nat>, m: Option<nat>, s: Option<nat>)
    ensures ParseYouTubeDuration(IsoDuration(h, m, s)) == OrZero(h) * 3600 + OrZero(m) * 60 + OrZero(s)
  {
    MatchOfIso(h, m, s);
    if h.Some? { ShowNatValue(h.value); }
    if m.Some? { ShowNatValue(m.value); }
    if s.Some? { ShowNatValue(s.value); }
  }

  /** The example of the source's own comment: `PT4M13S` is 253 seconds. */
  lemma FourMinutesThirteen()
    ensures ParseYouTubeDuration("PT4M13S") == 253
  {
    assert ShowNat(4) == "4";
    assert ShowNat(13) == ShowNat(1) + "3";
    assert IsoDuration(None, Some(4), Some(13)) == "PT4M13S";
    DurationRoundTrip(None, Some(4), Some(13));
  }

  // ---------------------------------------------------------------- custom records

  /** A mapped record: the properties `mapCustomData` sets on its DTO. */
  type Fields = map<string, Json>

  /** `item[key]` on an item that is not `null`: `undefined` unless the item is
      an object holding `key`. */
  function Get(item: Json, key: string): Option<Json>
  {
    if item.JObj? && key in item.fields then Some(item.fields[key]) else None
  }

  /** The TypeError of reading property `key` of `null`. */
  function NullRead(key: string): string
  {
    "Cannot read properties of null (reading '" + key + "')"
  }

  /** The fields the mapping entries copy from `item`, entry by entry: only
      defined values are copied, and a later entry for a target wins. */
  function Copied(item: Json, mapping: seq<(string, string)>): Fields
  {
    if mapping == [] then map[]
    else
      var dto := Copied(item, mapping[..|mapping| - 1]);
      var entry := mapping[|mapping| - 1];
      var v := Get(item, entry.1);
      if v.Some? then dto[entry.0 := v.value] else dto
  }

  predicate HasTruthy(dto: Fields, key: string)
  {
    key in dto && JsonTruthy(dto[key])
  }

  const DefaultLanguage := "ar"

  /** The defaults of `mapCustomData`: a falsy `type` becomes video and a
      falsy `language` becomes Arabic; a truthy value and every other field
      stay. */
  function WithDefaults(dto: Fields): (r: Fields)
    ensures HasTruthy(r, "type") && HasTruthy(r, "language")
    ensures HasTruthy(dto, "type") ==> r["type"] == dto["type"]
    ensures !HasTruthy(dto, "type") ==> r["type"] == JStr(TypeName(Video))
    ensures HasTruthy(dto, "language") ==> r["language"] == dto["language"]
    ensures !HasTruthy(dto, "language") ==> r["language"] == JStr(DefaultLanguage)
    ensures forall k :: k != "type" && k != "language" ==> (k in r <==> k in dto)
    ensures forall k :: k != "type" && k != "language" && k in r ==> r[k] == dto[k]
  {
    var typed := if HasTruthy(dto, "type") then dto else dto["type" := JStr(TypeName(Video))];
    if HasTruthy(typed, "language") then typed else typed["language" := JStr(DefaultLanguage)]
  }

  /** Filling the defaults twice changes nothing more. */
  lemma DefaultsIdempotent(dto: Fields)
    ensures WithDefaults(WithDefaults(dto)) == WithDefaults(dto)
  {
    var once := WithDefaults(dto);
    var twice := WithDefaults(once);
    assert twice.Keys == once.Keys;
  }

  /** A target has a field exactly when some entry for it names a source the
      item defines. */
  lemma {:induction false} CopiedKeys(item: Json, mapping: seq<(string, string)>, target: string)
    ensures target in Copied(item, mapping) <==>
      exists i :: 0 <= i < |mapping| && mapping[i].0 == target && Get(item, mapping[i].1).Some?
  {
    if mapping != [] {
      var init := mapping[..|mapping| - 1];
      CopiedKeys(item, init, target);
      if target in Copied(item, init) {
        var i :| 0 <= i < |init| && init[i].0 == target && Get(item, init[i].1).Some?;
        assert mapping[i] == init[i];
      }
      if exists i :: 0 <= i < |mapping| && mapping[i].0 == target && Get(item, mapping[i].1).Some? {
        var i :| 0 <= i < |mapping| && mapping[i].0 == target && Get(item, mapping[i].1).Some?;
        if i < |init| {
          assert init[i] == mapping[i];
        }
      }
    }
  }

  /** The entries of a `Record` name distinct targets. */
  predicate DistinctTargets(mapping: seq<(string, string)>)
  {
    forall i, j :: 0 <= i < j < |mapping| ==> mapping[i].0 != mapping[j].0
  }

  /** With distinct targets, each target whose source is defined holds the
      item's value of that source. */
  lemma {:induction false} CopiedValue(item: Json, mapping: seq<(string, string)>, i: nat)
    requires DistinctTargets(mapping)
    requires i < |mapping| && Get(item, mapping[i].1).Some?
    ensures mapping[i].0 in Copied(item, mapping)
    ensures Copied(item, mapping)[mapping[i].0] == Get(item, mapping[i].1).value
  {
    var init := mapping[..|mapping| - 1];
    var last := mapping[|mapping| - 1];
    if i < |init| {
      assert init[i] == mapping[i];
      assert DistinctTargets(init) by {
        forall a, b | 0 <= a < b < |init| ensures init[a].0 != init[b].0 {
          assert init[a] == mapping[a] && init[b] == mapping[b];
        }
      }
      CopiedValue(item, init, i);
      assert last.0 != mapping[i].0;
    }
  }

  /** `mapCustomData`: every entry copies `item[source]` to its target when
      that is defined, then the defaults are filled. Reading a property of a
      `null` item throws, which the first entry does. */
  method MapCustomData(item: Json, mapping: seq<(string, string)>) returns (r: Result<Fields>)
    ensures item.JNull? && mapping != [] ==> r == Err(TypeError(NullRead(mapping[0].1)))
    ensures !(item.JNull? && mapping != []) ==> r == Ok(WithDefaults(Copied(item, mapping)))
  {
    var dto: Fields := map[];
    var i := 0;
    while i < |mapping|
      invariant 0 <= i <= |mapping|
      invariant dto == Copied(item, mapping[..i])
      invariant i > 0 ==> !item.JNull?
    {
      var entry := mapping[i];
      if item.JNull? {
        return Err(TypeError(NullRead(entry.1)));
      }
      var v := Get(item, entry.1);
      if v.Some? {
        dto := dto[entry.0 := v.value];
      }
      assert mapping[..i + 1][..i] == mapping[..i];
      i := i + 1;
    }
    assert mapping[..i] == mapping;
    if !HasTruthy(dto, "type") {
      dto := dto["type" := JStr(TypeName(Video))];
    }
    if !HasTruthy(dto, "language") {
      dto := dto["language" := JStr(DefaultLanguage)];
    }
    r := Ok(dto);
  }

  /** What `contentService.create` does with a mapped record: `None` when it
      is saved, otherwise the message of the error it throws. */
  type Create = Fields -> Option<string>

  /** The message an item leaves, or `None` when it is imported. */
  function ItemFailure(item: Json, mapping: seq<(string, string)>, create: Create): Option<string>
  {
    if item.JNull? && mapping != [] then Some(NullRead(mapping[0].1))
    else create(WithDefaults(Copied(item, mapping)))
  }

  /** How many of the items are imported. */
  function Imported(items: seq<Json>, mapping: seq<(string, string)>, create: Create): nat
  {
    if items == [] then 0
    else
      Imported(items[..|items| - 1], mapping, create)
      + (if ItemFailure(items[|items| - 1], mapping, create).None? then 1 else 0)
  }

  const FailurePrefix := "Failed to import item: "

  /** The errors of the items that are not imported, in item order. */
  function Failures(items: seq<Json>, mapping: seq<(string, string)>, create: Create): seq<string>
  {
    if items == [] then []
    else
      var f := ItemFailure(items[|items| - 1], mapping, create);
      Failures(items[..|items| - 1], mapping, create) + (if f.Some? then [FailurePrefix + f.value] else [])
  }

  /** Every item is either imported or leaves exactly one error. */
  lemma {:induction false} EveryItemAccounted(items: seq<Json>, mapping: seq<(string, string)>, create: Create)
    ensures Imported(items, mapping, create) + |Failures(items, mapping, create)| == |items|
  {
    if items != [] {
      EveryItemAccounted(items[..|items| - 1], mapping, create);
    }
  }

  /** Some item is imported exactly when the count is positive. */
  lemma {:induction false} ImportedSome(items: seq<Json>, mapping: seq<(string, string)>, create: Create)
    ensures Imported(items, mapping, create) > 0 <==>
      exists i :: 0 <= i < |items| && ItemFailure(items[i], mapping, create).None?
  {
    if items != [] {
      var init := items[..|items| - 1];
      ImportedSome(init, mapping, create);
      if exists i :: 0 <= i < |init| && ItemFailure(init[i], mapping, create).None? {
        var i :| 0 <= i < |init| && ItemFailure(init[i], mapping, create).None?;
        assert items[i] == init[i];
      }
      if exists i :: 0 <= i < |items| && ItemFailure(items[i], mapping, create).None? {
        var i :| 0 <= i < |items| && ItemFailure(items[i], mapping, create).None?;
        if i < |init| {
          assert init[i] == items[i];
        }
      }
    }
  }

  /** `importFromCustomSource`: each item is mapped and created in turn; a
      failure of either is recorded and the loop goes on. The import succeeds
      when at least one item was created. */
  method ImportFromCustomSource(items: seq<Json>, mapping: seq<(string, string)>, create: Create)
    returns (r: ImportResult)
    ensures r.imported == Imported(items, mapping, create)
    ensures r.errors == Failures(items, mapping, create)
    ensures r.imported + |r.errors| == |items|
    ensures r.success <==> exists i :: 0 <= i < |items| && ItemFailure(items[i], mapping, create).None?
  {
    r := ImportResult(false, 0, []);
    var i := 0;
    while i < |items|
      invariant 0 <= i <= |items|
      invariant r.imported == Imported(items[..i], mapping, create)
      invariant r.errors == Failures(items[..i], mapping, create)
    {
      assert items[..i + 1][..i] == items[..i];
      var dto := MapCustomData(items[i], mapping);
      if dto.Err? {
        r := r.(errors := r.errors + [FailurePrefix + Message(dto.error)]);
      } else {
        var thrown := create(dto.value);
        if thrown.None? {
          r := r.(imported := r.imported + 1);
        } else {
          r := r.(errors := r.errors + [FailurePrefix + thrown.value]);
        }
      }
      i := i + 1;
    }
    assert items[..i] == items;
    r := r.(success := r.imported > 0);
    EveryItemAccounted(items, mapping, create);
    ImportedSome(items, mapping, create);
  }

  // ---------------------------------------------------------------- YouTube videos

  /** The fields of a YouTube API video that the conversion reads; `raw` is
      the whole object. */
  datatype YouTubeVideo = YouTubeVideo(
    id: string,
    title: Option<string>,
    description: Option<string>,
    highThumbnail: Option<string>,
    duration: string,
    raw: Json)

  const WatchPrefix := "https://www.youtube.com/watch?v="
  const YouTube := "youtube"

  function WatchUrl(id: string): string
  {
    WatchPrefix + id
  }

  /** `transformYouTubeVideo`: a draft Arabic video in category and source
      `youtube`, pointing at the video's watch page. */
  function TransformYouTubeVideo(video: YouTubeVideo): (dto: ContentPatch)
    ensures dto.contentType == Some(Video) && dto.status == Some(Draft)
    ensures dto.category == Some(YouTube) && dto.source == Some(YouTube) && dto.language == Some(DefaultLanguage)
    ensures dto.mediaUrl == Some(WatchUrl(video.id))
    ensures dto.duration == Some(ParseYouTubeDuration(video.duration) as int)
    ensures dto.sourceData == Some(video.raw) && dto.metadata.None?
  {
    ContentPatch(
      title := video.title,
      description := video.description,
      contentType := Some(Video),
      category := Some(YouTube),
      language := Some(DefaultLanguage),
      duration := Some(ParseYouTubeDuration(video.duration)),
      thumbnailUrl := video.highThumbnail,
      mediaUrl := Some(WatchUrl(video.id)),
      status := Some(Draft),
      source := Some(YouTube),
      sourceData := Some(video.raw),
      metadata := None)
  }

  /** The watch URL gives the video id back: it is what follows the fixed
      prefix, so two videos share a URL only when they share an id. */
  lemma WatchUrlId(a: YouTubeVideo, b: YouTubeVideo)
    ensures var url := TransformYouTubeVideo(a).mediaUrl.value;
      StartsWith(url, WatchPrefix) && url[|WatchPrefix|..] == a.id
    ensures TransformYouTubeVideo(a).mediaUrl == TransformYouTubeVideo(b).mediaUrl ==> a.id == b.id
  {
    var ua := WatchUrl(a.id);
    var ub := WatchUrl(b.id);
    assert ua[..|WatchPrefix|] == WatchPrefix;
    assert ua[|WatchPrefix|..] == a.id;
    assert ub[|WatchPrefix|..] == b.id;
  }
}
